/** The synthetic users of loadtests/dataset_user.cpp: the generator, and the canonical text whose
    hash stands for a whole dataset. A user is a function of seed, index, size and status: the name
    and the filler bytes come from the generator SplitMix64, the other fields from the index alone.
    The text is one line a user with its fields between bars, and it can be read only one way.
    Unsigned 64-bit numbers are written out modulo 2^64. */
module UserDataset {
  import opened Bytes
  import opened Separated
  import opened SplitMix64
  import opened Text

  const TWO_TO_63: nat := 0x8000_0000_0000_0000

  datatype User = User(id: int, login: string, email: string, displayName: string,
                       createdAt: int, status: int, filler: seq<byte>)

  // ----- the users -----

  const SYLLABLES: seq<string> := ["an", "ber", "car", "dol", "eri", "fon", "gil", "hus", "ivo", "jor"]

  function Syllable(z: nat): (s: string)
    ensures s != "" && forall i :: 0 <= i < |s| ==> 'a' <= s[i] <= 'z'
  {
    SYLLABLES[z % 10]
  }

  function Syllables(state: nat, n: nat): (name: string)
    ensures forall i :: 0 <= i < |name| ==> 'a' <= name[i] <= 'z'
    ensures n > 0 ==> name != ""
  {
    if n == 0 then "" else Syllables(state, n - 1) + Syllable(Mix(After(state, n)))
  }

  /** The ASCII case of `std::toupper`. */
  function ToUpper(c: char): char {
    if 'a' <= c <= 'z' then (c as int - 32) as char else c
  }

  function SyllableCount(state: nat): (n: nat)
    ensures 2 <= n <= 4
  {
    2 + Mix(NextState(state)) % 3
  }

  function DisplayName(state: nat): string {
    var name := Syllables(NextState(state), SyllableCount(state));
    name[0 := ToUpper(name[0])]
  }

  function Min(a: nat, b: nat): nat {
    if a < b then a else b
  }

  /** The bytes of a 64-bit number in memory, the least significant first. */
  function Chunk(z: nat): (bytes: seq<byte>)
    ensures |bytes| == 8
  {
    seq(8, i requires 0 <= i < 8 => Shifted(z, i) % 256)
  }

  /** What is used of the next number when n bytes are still to come. */
  function NextBytes(state: nat, n: nat): (bytes: seq<byte>)
    ensures |bytes| == Min(8, n)
  {
    Chunk(Mix(NextState(state)))[..Min(8, n)]
  }

  /** n bytes: eight from each number. */
  function Filler(state: nat, n: nat): (filler: seq<byte>)
    ensures |filler| == n
    decreases n
  {
    if n == 0 then []
    else NextBytes(state, n) + Filler(NextState(state), n - Min(8, n))
  }

  /** A cast from unsigned to signed 64-bit. */
  function Signed64(n: nat): int {
    if n % TWO_TO_64 < TWO_TO_63 then n % TWO_TO_64 else n % TWO_TO_64 - TWO_TO_64
  }

  function StartState(seed: nat, index: nat): nat {
    Xor(seed, (index * 0x9E3779B97F4A7C15 + 0xD1B54A32D192ED03) % TWO_TO_64)
  }

  function Generated(seed: nat, index: nat, fillerBytes: nat, status: int): User {
    var state := StartState(seed, index);
    User(Signed64(index),
         "user" + Decimal(index),
         "user" + Decimal(index) + "@example.test",
         DisplayName(state),
         1767225600 + Signed64(index) * 37,
         status,
         Filler(After(state, 1 + SyllableCount(state)), fillerBytes))
  }

  /** `generate_user_ex`. */
  method GenerateUser(seed: nat, index: nat, fillerBytes: nat, status: int) returns (user: User)
    ensures user == Generated(seed, index, fillerBytes, status)
  {
    var generator := new SplitMix(StartState(seed, index));
    var name := GenerateName(generator);
    var filler := GenerateFiller(generator, fillerBytes);
    user := User(Signed64(index), "user" + Decimal(index), "user" + Decimal(index) + "@example.test", name,
                 1767225600 + Signed64(index) * 37, status, filler);
  }

  method GenerateName(generator: SplitMix) returns (name: string)
    modifies generator
    ensures name == DisplayName(old(generator.state))
    ensures generator.state == After(old(generator.state), 1 + SyllableCount(old(generator.state)))
  {
    hide Mix, NextState;
    ghost var start := generator.state;
    var z := generator.Next();
    var syllableCount := 2 + z % 3;
    name := "";
    for i := 0 to syllableCount
      invariant generator.state == After(NextState(start), i)
      invariant name == Syllables(NextState(start), i)
    {
      z := generator.Next();
      name := name + SYLLABLES[z % 10];
    }
    name := name[0 := ToUpper(name[0])];
    AfterOneMore(start, syllableCount);
  }

  lemma {:induction false} AfterOneMore(state: nat, k: nat)
    ensures After(NextState(state), k) == After(state, 1 + k)
  {
    if k > 0 {
      AfterOneMore(state, k - 1);
    } else {
      assert After(state, 1) == NextState(After(state, 0));
    }
  }

  method GenerateFiller(generator: SplitMix, fillerBytes: nat) returns (filler: seq<byte>)
    modifies generator
    ensures filler == Filler(old(generator.state), fillerBytes)
  {
    filler := [];
    while |filler| < fillerBytes
      invariant |filler| <= fillerBytes
      invariant filler + Filler(generator.state, fillerBytes - |filler|) == Filler(old(generator.state), fillerBytes)
      decreases fillerBytes - |filler|
    {
      ghost var left := fillerBytes - |filler|;
      ghost var next := NextBytes(generator.state, left);
      var chunk := generator.Next();
      Regroup(filler, next, Filler(generator.state, left - |next|));
      filler := AppendChunk(filler, Chunk(chunk), fillerBytes);
    }
  }

  /** The inner loop: as many of the eight bytes as are still wanted. */
  method AppendChunk(before: seq<byte>, bytes: seq<byte>, fillerBytes: nat) returns (filler: seq<byte>)
    requires |bytes| == 8 && |before| <= fillerBytes
    ensures filler == before + bytes[..Min(8, fillerBytes - |before|)]
  {
    filler := before;
    var i := 0;
    while i < 8 && |filler| < fillerBytes
      invariant i <= Min(8, fillerBytes - |before|) && filler == before + bytes[..i]
    {
      filler := filler + [bytes[i]];
      i := i + 1;
    }
  }

  // ----- the canonical text -----

  function Signed(n: int): (s: string)
    ensures s != ""
  {
    if n < 0 then "-" + Decimal(-n) else Decimal(n)
  }

  lemma SignShows(n: int)
    ensures Signed(n)[0] == '-' <==> n < 0
  {
    assert n >= 0 ==> IsDigit(Signed(n)[0]);
  }

  lemma SignedIsInjective(m: int, n: int)
    requires Signed(m) == Signed(n)
    ensures m == n
  {
    SignShows(m);
    SignShows(n);
    if m < 0 {
      assert Decimal(-m) == Signed(m)[1..] && Decimal(-n) == Signed(n)[1..];
      DecimalIsInjective(-m, -n);
    } else {
      DecimalIsInjective(m, n);
    }
  }

  function Numbers(filler: seq<byte>): (texts: seq<string>)
    ensures |texts| == |filler| && forall i :: 0 <= i < |filler| ==> texts[i] == Decimal(filler[i])
  {
    seq(|filler|, i requires 0 <= i < |filler| => Decimal(filler[i]))
  }

  /** The count and then the bytes. */
  function FillerText(filler: seq<byte>): string {
    Join([Decimal(|filler|)] + Numbers(filler), ',')
  }

  function Fields(u: User): seq<string> {
    [Signed(u.id), u.login, u.email, u.displayName, Signed(u.createdAt), Signed(u.status), FillerText(u.filler)]
  }

  function Line(u: User): string {
    Join(Fields(u), '|')
  }

  /** `canonical_line`. */
  method CanonicalLine(u: User) returns (line: string)
    ensures line == Line(u)
  {
    hide Decimal, Signed;
    line := Signed(u.id) + "|" + u.login + "|" + u.email + "|" + u.displayName + "|"
            + Signed(u.createdAt) + "|" + Signed(u.status) + "|";
    ghost var head := line;
    line := line + Decimal(|u.filler|);
    for i := 0 to |u.filler|
      invariant line == head + Join([Decimal(|u.filler|)] + Numbers(u.filler)[..i], ',')
    {
      ghost var done := [Decimal(|u.filler|)] + Numbers(u.filler)[..i];
      JoinAppends(done, [Decimal(u.filler[i])], ',');
      assert done + [Decimal(u.filler[i])] == [Decimal(|u.filler|)] + Numbers(u.filler)[..i + 1];
      Regroup(head, Join(done, ','), "," + Decimal(u.filler[i]));
      line := line + "," + Decimal(u.filler[i]);
    }
    assert Numbers(u.filler)[..|u.filler|] == Numbers(u.filler);
    JoinSeven(Signed(u.id), u.login, u.email, u.displayName, Signed(u.createdAt), Signed(u.status),
              FillerText(u.filler));
  }

  lemma JoinSeven(a: string, b: string, c: string, d: string, e: string, f: string, g: string)
    ensures Join([a, b, c, d, e, f, g], '|')
         == a + "|" + b + "|" + c + "|" + d + "|" + e + "|" + f + "|" + g
  {
    var p2, p3, p4 := [a, b], [a, b, c], [a, b, c, d];
    var p5, p6, p7 := p4 + [e], p4 + [e] + [f], p4 + [e] + [f] + [g];
    assert [a] + [b] == p2 && p2 + [c] == p3 && p3 + [d] == p4 && p7 == [a, b, c, d, e, f, g];
    OneField([a], b, a);
    OneField(p2, c, a + "|" + b);
    OneField(p3, d, a + "|" + b + "|" + c);
    OneField(p4, e, a + "|" + b + "|" + c + "|" + d);
    OneField(p5, f, a + "|" + b + "|" + c + "|" + d + "|" + e);
    OneField(p6, g, a + "|" + b + "|" + c + "|" + d + "|" + e + "|" + f);
  }

  lemma OneField(parts: seq<string>, field: string, text: string)
    requires parts != [] && Join(parts, '|') == text
    ensures Join(parts + [field], '|') == text + "|" + field
  {
    JoinAppends(parts, [field], '|');
    Regroup(text, "|", field);
  }

  /** The concatenation over users that the harness hashes. */
  function Stream(users: seq<User>): string {
    if users == [] then "" else Line(users[0]) + ("\n" + Stream(users[1..]))
  }

  // ----- the text is unambiguous -----

  predicate PlainText(s: string) {
    Free(s, '|') && Free(s, '\n')
  }

  predicate Clean(u: User) {
    PlainText(u.login) && PlainText(u.email) && PlainText(u.displayName)
  }

  predicate IsNumeric(s: string) {
    forall i :: 0 <= i < |s| ==> IsDigit(s[i]) || s[i] == '-' || s[i] == ','
  }

  lemma {:induction false} JoinIsNumeric(parts: seq<string>)
    requires forall i :: 0 <= i < |parts| ==> IsNumeric(parts[i])
    ensures IsNumeric(Join(parts, ','))
  {
    if |parts| > 1 {
      JoinIsNumeric(parts[1..]);
    }
  }

  lemma FillerIsNumeric(filler: seq<byte>)
    ensures IsNumeric(FillerText(filler))
  {
    JoinIsNumeric([Decimal(|filler|)] + Numbers(filler));
  }

  lemma SignedIsNumeric(n: int)
    ensures IsNumeric(Signed(n))
  {
  }

  lemma FieldsArePlain(u: User)
    requires Clean(u)
    ensures AllFree(Fields(u), '|') && AllFree(Fields(u), '\n')
  {
    hide FillerText, Signed;
    SignedIsNumeric(u.id);
    SignedIsNumeric(u.createdAt);
    SignedIsNumeric(u.status);
    FillerIsNumeric(u.filler);
  }

  lemma FillerTextIsInjective(f: seq<byte>, g: seq<byte>)
    requires FillerText(f) == FillerText(g)
    ensures f == g
  {
    var x, y := [Decimal(|f|)] + Numbers(f), [Decimal(|g|)] + Numbers(g);
    SplitOfJoin(x, ',');
    SplitOfJoin(y, ',');
    assert Numbers(f) == x[1..] && Numbers(g) == y[1..];
    assert |f| == |g|;
    forall i | 0 <= i < |f| ensures f[i] == g[i] {
      assert Numbers(f)[i] == Numbers(g)[i];
      DecimalIsInjective(f[i], g[i]);
    }
  }

  /** Two users with one line are one user. */
  lemma LineIsInjective(u: User, v: User)
    requires Clean(u) && Clean(v) && Line(u) == Line(v)
    ensures u == v
  {
    FieldsArePlain(u);
    FieldsArePlain(v);
    SplitOfJoin(Fields(u), '|');
    SplitOfJoin(Fields(v), '|');
    var x, y := Fields(u), Fields(v);
    assert x[0] == y[0] && x[1] == y[1] && x[2] == y[2] && x[3] == y[3];
    assert x[4] == y[4] && x[5] == y[5] && x[6] == y[6];
    SignedIsInjective(u.id, v.id);
    SignedIsInjective(u.createdAt, v.createdAt);
    SignedIsInjective(u.status, v.status);
    FillerTextIsInjective(u.filler, v.filler);
  }

  lemma {:induction false} JoinIsFree(parts: seq<string>, sep: char, c: char)
    requires AllFree(parts, c) && sep != c
    ensures Free(Join(parts, sep), c)
  {
    if |parts| > 1 {
      JoinIsFree(parts[1..], sep, c);
    }
  }

  lemma LineIsOneLine(u: User)
    requires Clean(u)
    ensures Free(Line(u), '\n')
  {
    FieldsArePlain(u);
    JoinIsFree(Fields(u), '|', '\n');
  }

  predicate AllClean(users: seq<User>) {
    forall i :: 0 <= i < |users| ==> Clean(users[i])
  }

  lemma FirstLine(u: User, rest: string)
    requires Clean(u)
    ensures Find(Line(u) + ("\n" + rest), '\n', 0) == |Line(u)|
  {
    LineIsOneLine(u);
    FindsFirst(Line(u) + ("\n" + rest), '\n', 0, |Line(u)|);
  }

  /** One stream, one sequence of users. */
  lemma {:induction false} StreamIsInjective(us: seq<User>, vs: seq<User>)
    requires AllClean(us) && AllClean(vs) && Stream(us) == Stream(vs)
    ensures us == vs
  {
    if us != [] && vs != [] {
      var rest, rest' := Stream(us[1..]), Stream(vs[1..]);
      var s := Stream(us);
      FirstLine(us[0], rest);
      FirstLine(vs[0], rest');
      assert s[..|Line(us[0])|] == Line(us[0]) && s[..|Line(vs[0])|] == Line(vs[0]);
      assert s[|Line(us[0])| + 1..] == rest && s[|Line(vs[0])| + 1..] == rest';
      LineIsInjective(us[0], vs[0]);
      StreamIsInjective(us[1..], vs[1..]);
      assert us == [us[0]] + us[1..] && vs == [vs[0]] + vs[1..];
    }
  }

  /** Every generated user meets the condition, and has as many filler bytes as asked. */
  lemma GeneratedIsClean(seed: nat, index: nat, fillerBytes: nat, status: int)
    ensures Clean(Generated(seed, index, fillerBytes, status))
    ensures |Generated(seed, index, fillerBytes, status).filler| == fillerBytes
  {
    hide Mix, Syllables, SyllableCount, Filler, StartState, After, Decimal;
    var u := Generated(seed, index, fillerBytes, status);
    assert AllDigits(Decimal(index));
    assert PlainText("user" + Decimal(index));
    assert PlainText("@example.test");
    assert u.email == ("user" + Decimal(index)) + "@example.test";
  }

  // ----- one dataset -----

  /** Byte k of the filler is byte k % 8 of the number k / 8 + 1, the least significant first. */
  lemma {:induction false} FillerAt(state: nat, n: nat, k: nat)
    requires k < n
    ensures Filler(state, n)[k] == Shifted(Mix(After(state, k / 8 + 1)), k % 8) % 256
    decreases n
  {
    hide Mix, NextState;
    var first := NextBytes(state, n);
    if k < 8 {
      assert Filler(state, n)[k] == first[k];
      assert After(state, 1) == NextState(After(state, 0));
    } else {
      FillerAt(NextState(state), n - 8, k - 8);
      assert Filler(state, n)[k] == Filler(NextState(state), n - 8)[k - 8];
      AfterOneMore(state, (k - 8) / 8 + 1);
    }
  }

  lemma SameFront(a: string, b: string, tail: string)
    requires a + tail == b + tail
    ensures a == b
  {
    assert |a| == |b|;
    assert a == (a + tail)[..|a|] && b == (b + tail)[..|b|];
  }

  /** Users of one dataset, and of two, differ in id, login and email as soon as their indices do,
      and are created 37 seconds apart from index to index. */
  lemma UsersDiffer(seed: nat, seed': nat, i: nat, j: nat, size: nat, size': nat, status: int, status': int)
    requires i < TWO_TO_63 && j < TWO_TO_63 && i != j
    ensures var u, v := Generated(seed, i, size, status), Generated(seed', j, size', status');
      && u.id == i && v.id == j && u.login != v.login && u.email != v.email
      && u.createdAt - v.createdAt == 37 * (i - j)
  {
    hide Filler, DisplayName, StartState, SyllableCount;
    var a, b, tail := "user" + Decimal(i), "user" + Decimal(j), "@example.test";
    assert a[4..] == Decimal(i) && b[4..] == Decimal(j);
    if Decimal(i) == Decimal(j) {
      DecimalIsInjective(i, j);
    }
    if a + tail == b + tail {
      SameFront(a, b, tail);
    }
  }

  /** A display name is one upper-case letter and then lower-case letters. */
  lemma NameIsCapitalised(state: nat)
    ensures var name := DisplayName(state);
      && name != "" && 'A' <= name[0] <= 'Z' && forall k :: 1 <= k < |name| ==> 'a' <= name[k] <= 'z'
  {
    hide Mix, NextState, Syllables;
  }
}
