/** The crash-safe line writer (benchmarks/runner/jsonl_writer.cpp): lines go to a file whose name
    ends in .partial, which gets its final name only when it is finished. */
module JsonlWriter {
  import opened Bytes
  import opened Sha256Standard
  import opened Sha256Code

  /** The files by path. A file is its bytes. */
  class Disk {
    var files: map<string, string>

    constructor (files: map<string, string>)
      ensures this.files == files
    {
      this.files := files;
    }
  }

  /** The bytes of a text whose characters are bytes. */
  function BytesOf(s: string): (b: seq<byte>)
    ensures |b| == |s|
  {
    seq(|s|, i requires 0 <= i < |s| => s[i] as int % 256)
  }

  function ContentHash(content: string): string {
    HexOf(Sha256(BytesOf(content)))
  }

  /** Complete lines, and then perhaps a line that was cut. */
  predicate IsTorn(file: string, complete: string, line: string) {
    exists k :: 0 <= k <= |line| && file == complete + line[..k]
  }

  class Writer {
    const disk: Disk
    var finalPath: string
    var partialPath: string
    var isOpen: bool
    /** The state of the stream: no write to it has failed. */
    var good: bool
    var contentBuffer: string
    var bytesWritten: nat
    /** History: opening, writing or renaming the file has failed. */
    ghost var failed: bool

    /** While open and unharmed, the file is what was written, line by line. */
    ghost predicate Valid()
      reads this, disk
    {
      && |contentBuffer| == bytesWritten
      && (isOpen ==> partialPath != finalPath && partialPath in disk.files)
      && (isOpen && good ==> disk.files[partialPath] == contentBuffer)
    }

    constructor (disk: Disk)
      ensures this.disk == disk && Valid() && !isOpen && !failed
    {
      this.disk, failed := disk, false;
      finalPath, partialPath, isOpen, good, contentBuffer, bytesWritten := "", "", false, true, "", 0;
    }

    /** Refuses when the final name is taken; an old partial file is thrown away. */
    method Open(path: string) returns (ok: bool)
      requires !isOpen
      modifies this, disk
      ensures old(path in disk.files) ==> !ok && disk.files == old(disk.files)
      ensures ok ==>
        && Valid() && isOpen && good && contentBuffer == ""
        && finalPath == path && partialPath == path + ".partial"
        && disk.files == old(disk.files)[path + ".partial" := ""]
      ensures !ok && path !in old(disk.files) ==> disk.files == old(disk.files) - {path + ".partial"}
      ensures !ok ==> !isOpen
      ensures failed == (old(failed) || (!ok && path !in old(disk.files)))
    {
      if path in disk.files {
        return false;
      }
      finalPath, partialPath := path, path + ".partial";
      if partialPath in disk.files {
        disk.files := disk.files - {partialPath};
      } else {
        assert disk.files - {partialPath} == disk.files;
      }
      if * {
        failed := true;
        return false;
      }
      disk.files := disk.files[partialPath := ""];
      isOpen, good, contentBuffer, bytesWritten := true, true, "", 0;
      ok := true;
    }

    /** The append stream of `resume_campaign`, with the content it has read. */
    method Reopen(partial: string, final: string, content: string) returns (ok: bool)
      requires !isOpen && partial != final && partial in disk.files && disk.files[partial] == content
      modifies this
      ensures ok ==>
        && Valid() && isOpen && good && contentBuffer == content && partialPath == partial && finalPath == final
      ensures !ok ==> !isOpen
      ensures failed == (old(failed) || !ok)
    {
      if * {
        failed := true;
        return false;
      }
      partialPath, finalPath, isOpen, good := partial, final, true, true;
      contentBuffer, bytesWritten := content, |content|;
      ok := true;
    }

    /** One line and its newline. When it fails, any part of the line may be in the file. */
    method WriteLine(line: string) returns (ok: bool)
      requires Valid()
      modifies this`good, this`contentBuffer, this`bytesWritten, this`failed, disk
      ensures Valid()
      ensures ok ==> old(isOpen && good) && good
      ensures failed == (old(failed) || (old(isOpen && good) && !ok))
      ensures contentBuffer == if ok then old(contentBuffer) + line + "\n" else old(contentBuffer)
      ensures old(isOpen && good) ==>
        && partialPath in disk.files
        && IsTorn(disk.files[partialPath], old(contentBuffer), line + "\n")
      ensures forall p :: p != partialPath ==> (p in disk.files <==> p in old(disk.files))
      ensures forall p :: p in old(disk.files) && p != partialPath ==> disk.files[p] == old(disk.files)[p]
    {
      if !isOpen || !good {
        return false;
      }
      var whole := line + "\n";
      ok := *;
      var written := AnyLength(|whole|);
      if ok {
        written := |whole|;
      }
      disk.files := disk.files[partialPath := contentBuffer + whole[..written]];
      if !ok {
        good, failed := false, true;
        return;
      }
      assert whole[..written] == whole && contentBuffer + whole == contentBuffer + line + "\n";
      contentBuffer := contentBuffer + line;
      contentBuffer := contentBuffer + "\n";
      bytesWritten := bytesWritten + |line| + 1;
    }

    /** Gives the file its final name. */
    method Finish() returns (ok: bool)
      requires Valid()
      modifies this`isOpen, this`failed, disk
      ensures Valid() && !isOpen
      ensures failed == (old(failed) || (old(isOpen) && !ok))
      ensures ok ==>
        && old(isOpen)
        && disk.files == (old(disk.files) - {partialPath})[finalPath := old(disk.files[partialPath])]
      ensures ok && good ==> disk.files[finalPath] == contentBuffer
      ensures !ok ==> disk.files == old(disk.files)
    {
      if !isOpen {
        return false;
      }
      isOpen := false;
      if * {
        failed := true;
        return false;
      }
      disk.files := (disk.files - {partialPath})[finalPath := disk.files[partialPath]];
      ok := true;
    }

    /** The partial file stays. */
    method Abandon()
      requires Valid()
      modifies this`isOpen
      ensures Valid() && !isOpen
    {
      isOpen := false;
    }

    method ContentSha256Hex() returns (hash: string)
      requires Valid() && |contentBuffer| < TWO_TO_61
      ensures hash == ContentHash(contentBuffer)
    {
      var digest := ComputeSha256(BytesOf(contentBuffer));
      hash := Sha256Hex(digest);
    }
  }

  /** How much of a write reaches the disk. */
  method AnyLength(n: nat) returns (k: nat)
    ensures k <= n
  {
    k :| 0 <= k <= n;
  }
}
