/** Two accepted cases share a case id only if they are the same point of the matrix, given that
    their payload names hold the same number of underscores; and otherwise they may share one. The
    suffix is split at its underscores into tokens. Every part but the payload is one token of its
    own kind, and the kinds stand in one order, so that the parts can be peeled off from both ends;
    what is left in the middle is the payload, as soon as one knows how many tokens it takes. */
module CaseIdInjective {
  import opened CaseId
  import opened Separated
  import opened Text

  // ----- the suffix as tokens between underscores -----

  function When(b: bool, token: string): (tokens: seq<string>)
    ensures tokens == if b then [token] else []
  {
    Push([], b, token)
  }

  function PayloadTokens(c: Case): seq<string> {
    if c.payload != "normal" then ["payload"] + Split(c.payload, '_') else []
  }

  function Early(c: Case): seq<string> {
    When(c.concurrency != 1, "c" + Decimal(c.concurrency))
  }

  function BatchPart(c: Case): seq<string> {
    When(c.batch != 1000, "batch" + Decimal(c.batch))
  }

  function SyncPart(c: Case): seq<string> {
    When(c.durability != "sync_real", "nosync")
  }

  function RatioPart(c: Case): seq<string> {
    When(c.readsPerWrite != 10, "rw" + Decimal(c.readsPerWrite))
  }

  function CheckpointPart(c: Case): seq<string> {
    When(c.checkpointInterval != 64, "ckpt" + Decimal(c.checkpointInterval))
  }

  /** What follows the payload, in kinds 2 to 5. */
  function Late(c: Case): seq<string> {
    BatchPart(c) + (SyncPart(c) + (RatioPart(c) + CheckpointPart(c)))
  }

  function Tokens(c: Case): seq<string> {
    Early(c) + (PayloadTokens(c) + Late(c))
  }

  lemma PushIsAppend(parts: seq<string>, b: bool, part: string)
    ensures Push(parts, b, part) == parts + When(b, part)
  {
  }

  lemma AppendFour(p: seq<string>, a: seq<string>, b: seq<string>, c: seq<string>, d: seq<string>)
    ensures p + a + b + c + d == p + (a + (b + (c + d)))
  {
  }

  /** The parts of an accepted case. */
  lemma PartsAre(c: Case)
    requires Reason(c) == Accepted
    ensures Parts(c) == Early(c) + When(c.payload != "normal", "payload_" + c.payload) + Late(c)
  {
    var p1 := Early(c) + When(c.payload != "normal", "payload_" + c.payload);
    var batch, sync, ratio := BatchPart(c), SyncPart(c), RatioPart(c);
    PushIsAppend(Early(c), c.payload != "normal", "payload_" + c.payload);
    PushIsAppend(p1, c.batch != 1000, "batch" + Decimal(c.batch));
    PushIsAppend(p1 + batch, c.durability != "sync_real", "nosync");
    PushIsAppend(p1 + batch + sync, c.readsPerWrite != 10, "rw" + Decimal(c.readsPerWrite));
    PushIsAppend(p1 + batch + sync + ratio, c.checkpointInterval != 64, "ckpt" + Decimal(c.checkpointInterval));
    AppendFour(p1, batch, sync, ratio, CheckpointPart(c));
  }

  /** A joined part inside joined parts reads like its own parts. */
  lemma JoinInner(a: seq<string>, inner: seq<string>, b: seq<string>, sep: char)
    requires inner != []
    ensures Join(a + [Join(inner, sep)] + b, sep) == Join(a + inner + b, sep)
  {
    var one := [Join(inner, sep)];
    if a != [] {
      JoinAppends(a, one, sep);
      JoinAppends(a, inner, sep);
    } else {
      assert a + one == one && a + inner == inner;
    }
    assert Join(a + one, sep) == Join(a + inner, sep);
    if b != [] {
      JoinAppends(a + one, b, sep);
      JoinAppends(a + inner, b, sep);
    } else {
      assert a + one + b == a + one && a + inner + b == a + inner;
    }
  }

  lemma PayloadInside(early: seq<string>, payload: string, late: seq<string>)
    ensures Join(early + ["payload_" + payload] + late, '_')
         == Join(early + (["payload"] + Split(payload, '_') + late), '_')
  {
    var inner := ["payload"] + Split(payload, '_');
    JoinOfSplit(payload, '_');
    JoinAppends(["payload"], Split(payload, '_'), '_');
    assert "payload" + (['_'] + payload) == "payload_" + payload;
    JoinInner(early, inner, late, '_');
    Regroup(early, inner, late);
  }

  lemma SuffixIsTokens(c: Case)
    requires Reason(c) == Accepted
    ensures Suffix(c) == Join(Tokens(c), '_')
  {
    PartsAre(c);
    if c.payload == "normal" {
      Regroup(Early(c), [], Late(c));
    } else {
      PayloadInside(Early(c), c.payload, Late(c));
    }
  }

  lemma NumberedIsFree(word: string, n: nat)
    requires Free(word, '_')
    ensures Free(word + Decimal(n), '_')
  {
  }

  lemma PartsAreFree(c: Case)
    ensures AllFree(Early(c), '_') && AllFree(BatchPart(c), '_') && AllFree(SyncPart(c), '_')
    ensures AllFree(RatioPart(c), '_') && AllFree(CheckpointPart(c), '_')
  {
    NumberedIsFree("c", c.concurrency);
    NumberedIsFree("batch", c.batch);
    NumberedIsFree("rw", c.readsPerWrite);
    NumberedIsFree("ckpt", c.checkpointInterval);
  }

  lemma TokensAreFree(c: Case)
    ensures AllFree(Tokens(c), '_')
  {
    PartsAreFree(c);
    AppendIsFree(RatioPart(c), CheckpointPart(c));
    AppendIsFree(SyncPart(c), RatioPart(c) + CheckpointPart(c));
    AppendIsFree(BatchPart(c), SyncPart(c) + (RatioPart(c) + CheckpointPart(c)));
    SplitIsFree(c.payload, '_');
    AppendIsFree(["payload"], Split(c.payload, '_'));
    AppendIsFree(PayloadTokens(c), Late(c));
    AppendIsFree(Early(c), PayloadTokens(c) + Late(c));
  }

  lemma AppendIsFree(a: seq<string>, b: seq<string>)
    requires AllFree(a, '_') && AllFree(b, '_')
    ensures AllFree(a + b, '_')
  {
  }

  // ----- tokens show what they are -----

  function Kind(token: string): nat {
    if token == "payload" then 1
    else if token == "nosync" then 3
    else if |token| >= 1 && token[0] == 'b' then 2
    else if |token| >= 1 && token[0] == 'r' then 4
    else if |token| >= 2 && token[0] == 'c' && IsDigit(token[1]) then 0
    else 5
  }

  lemma KindOfNumbered(n: nat)
    ensures Kind("c" + Decimal(n)) == 0 && Kind("batch" + Decimal(n)) == 2
    ensures Kind("rw" + Decimal(n)) == 4 && Kind("ckpt" + Decimal(n)) == 5
  {
    var d := Decimal(n);
    assert ("c" + d)[0] == 'c' && ("c" + d)[1] == d[0];
    assert ("batch" + d)[0] == 'b' && ("rw" + d)[0] == 'r';
    assert ("ckpt" + d)[0] == 'c' && ("ckpt" + d)[1] == 'k';
  }

  /** At most one token, of this kind. */
  predicate Only(tokens: seq<string>, kind: nat) {
    tokens == [] || (|tokens| == 1 && Kind(tokens[0]) == kind)
  }

  predicate StartsAbove(tokens: seq<string>, kind: nat) {
    tokens == [] || Kind(tokens[0]) > kind
  }

  lemma Peel(x: seq<string>, y: seq<string>, kind: nat, restX: seq<string>, restY: seq<string>)
    requires Only(x, kind) && Only(y, kind) && StartsAbove(restX, kind) && StartsAbove(restY, kind)
    requires x + restX == y + restY
    ensures x == y && restX == restY
  {
    assert x == (x + restX)[..|x|] && y == (y + restY)[..|y|];
    assert restX == (x + restX)[|x|..] && restY == (y + restY)[|y|..];
  }

  lemma Above(x: seq<string>, kind: nat, rest: seq<string>, below: nat)
    requires Only(x, kind) && below < kind && StartsAbove(rest, below)
    ensures StartsAbove(x + rest, below)
  {
    assert x == [] ==> x + rest == rest;
  }

  lemma PeelFour(b: seq<string>, s: seq<string>, r: seq<string>, k: seq<string>,
                 b': seq<string>, s': seq<string>, r': seq<string>, k': seq<string>)
    requires Only(b, 2) && Only(s, 3) && Only(r, 4) && Only(k, 5)
    requires Only(b', 2) && Only(s', 3) && Only(r', 4) && Only(k', 5)
    requires b + (s + (r + k)) == b' + (s' + (r' + k'))
    ensures b == b' && s == s' && r == r' && k == k'
  {
    Above(r, 4, k, 3);
    Above(r', 4, k', 3);
    Above(s, 3, r + k, 2);
    Above(s', 3, r' + k', 2);
    Peel(b, b', 2, s + (r + k), s' + (r' + k'));
    Peel(s, s', 3, r + k, r' + k');
    Peel(r, r', 4, k, k');
  }

  lemma SameNumber(word: string, default: nat, m: nat, n: nat)
    requires When(m != default, word + Decimal(m)) == When(n != default, word + Decimal(n))
    ensures m == n
  {
    if m != default && n != default {
      assert [word + Decimal(m)][0] == [word + Decimal(n)][0];
      assert (word + Decimal(m))[|word|..] == (word + Decimal(n))[|word|..];
      DecimalIsInjective(m, n);
    }
  }

  lemma PartsShowTheirKind(c: Case)
    ensures Only(Early(c), 0) && Only(BatchPart(c), 2) && Only(SyncPart(c), 3)
    ensures Only(RatioPart(c), 4) && Only(CheckpointPart(c), 5)
  {
    KindOfNumbered(c.concurrency);
    KindOfNumbered(c.batch);
    KindOfNumbered(c.readsPerWrite);
    KindOfNumbered(c.checkpointInterval);
  }

  lemma LateStartsAbove(c: Case)
    ensures StartsAbove(Late(c), 1)
  {
    PartsShowTheirKind(c);
    FourStartAbove(BatchPart(c), SyncPart(c), RatioPart(c), CheckpointPart(c));
  }

  lemma FourStartAbove(b: seq<string>, s: seq<string>, r: seq<string>, k: seq<string>)
    requires Only(b, 2) && Only(s, 3) && Only(r, 4) && Only(k, 5)
    ensures StartsAbove(b + (s + (r + k)), 1)
  {
    Above(r, 4, k, 1);
    Above(s, 3, r + k, 1);
    Above(b, 2, s + (r + k), 1);
  }

  lemma SameLate(a: Case, b: Case)
    requires Late(a) == Late(b)
    ensures BatchPart(a) == BatchPart(b) && SyncPart(a) == SyncPart(b)
    ensures RatioPart(a) == RatioPart(b) && CheckpointPart(a) == CheckpointPart(b)
  {
    PartsShowTheirKind(a);
    PartsShowTheirKind(b);
    PeelFour(BatchPart(a), SyncPart(a), RatioPart(a), CheckpointPart(a),
             BatchPart(b), SyncPart(b), RatioPart(b), CheckpointPart(b));
  }

  lemma SameParts(a: Case, b: Case)
    requires Early(a) == Early(b) && BatchPart(a) == BatchPart(b) && SyncPart(a) == SyncPart(b)
    requires RatioPart(a) == RatioPart(b) && CheckpointPart(a) == CheckpointPart(b)
    ensures a.concurrency == b.concurrency && a.batch == b.batch && a.readsPerWrite == b.readsPerWrite
    ensures a.checkpointInterval == b.checkpointInterval
    ensures a.durability == "sync_real" <==> b.durability == "sync_real"
  {
    SameNumber("c", 1, a.concurrency, b.concurrency);
    SameNumber("batch", 1000, a.batch, b.batch);
    SameNumber("rw", 10, a.readsPerWrite, b.readsPerWrite);
    SameNumber("ckpt", 64, a.checkpointInterval, b.checkpointInterval);
  }

  function Underscores(payload: string): nat {
    |Split(payload, '_')| - 1
  }

  lemma PayloadAbove(c: Case)
    ensures StartsAbove(PayloadTokens(c) + Late(c), 0)
  {
    LateStartsAbove(c);
    if c.payload == "normal" {
      assert PayloadTokens(c) + Late(c) == Late(c);
    } else {
      assert (PayloadTokens(c) + Late(c))[0] == "payload";
    }
  }

  /** The payload name of these tokens, if any. */
  predicate NamesPayload(tokens: seq<string>, payload: string) {
    if payload == "normal" then tokens == [] else tokens == ["payload"] + Split(payload, '_')
  }

  lemma PeelPayload(x: seq<string>, y: seq<string>, p: string, q: string, restX: seq<string>, restY: seq<string>)
    requires NamesPayload(x, p) && NamesPayload(y, q) && Underscores(p) == Underscores(q)
    requires StartsAbove(restX, 1) && StartsAbove(restY, 1) && x + restX == y + restY
    ensures p == q && restX == restY
  {
    assert x != [] ==> (x + restX)[0] == "payload";
    assert y != [] ==> (y + restY)[0] == "payload";
    assert |x| == |y|;
    assert x == (x + restX)[..|x|] && y == (y + restY)[..|y|];
    assert restX == (x + restX)[|x|..] && restY == (y + restY)[|y|..];
    if x != [] {
      assert Split(p, '_') == x[1..] && Split(q, '_') == y[1..];
      JoinOfSplit(p, '_');
      JoinOfSplit(q, '_');
    }
  }

  /** The labels do not lie: accepted cases with one id are one point of the matrix, exactly when
      their payload names hold equally many underscores. */
  lemma CaseIdIsInjectiveExactly(a: Case, b: Case)
    requires Reason(a) == Accepted && Reason(b) == Accepted && DotFree(a) && DotFree(b)
    requires IdOf(a) == IdOf(b)
    ensures SameDimensions(a, b) <==> Underscores(a.payload) == Underscores(b.payload)
  {
    if Underscores(a.payload) == Underscores(b.payload) {
      SameIdSameSuffix(a, b);
      SameTokens(a, b);
      TokensTellTheCase(a, b);
      AcceptedAgree(a, b);
    }
  }

  lemma TokensTellTheCase(a: Case, b: Case)
    requires Tokens(a) == Tokens(b) && Underscores(a.payload) == Underscores(b.payload)
    ensures a.payload == b.payload && a.concurrency == b.concurrency && a.batch == b.batch
    ensures a.readsPerWrite == b.readsPerWrite && a.checkpointInterval == b.checkpointInterval
    ensures a.durability == "sync_real" <==> b.durability == "sync_real"
  {
    PartsShowTheirKind(a);
    PartsShowTheirKind(b);
    PayloadAbove(a);
    PayloadAbove(b);
    LateStartsAbove(a);
    LateStartsAbove(b);
    Peel(Early(a), Early(b), 0, PayloadTokens(a) + Late(a), PayloadTokens(b) + Late(b));
    PeelPayload(PayloadTokens(a), PayloadTokens(b), a.payload, b.payload, Late(a), Late(b));
    SameLate(a, b);
    SameParts(a, b);
  }

  /** The filter fixes the other dimensions. */
  lemma AcceptedAgree(a: Case, b: Case)
    requires Reason(a) == Accepted && Reason(b) == Accepted
    requires a.workload == b.workload && a.target == b.target && a.scale == b.scale
    requires a.payload == b.payload && a.concurrency == b.concurrency && a.batch == b.batch
    requires a.readsPerWrite == b.readsPerWrite && a.checkpointInterval == b.checkpointInterval
    requires a.durability == "sync_real" <==> b.durability == "sync_real"
    ensures SameDimensions(a, b)
  {
  }

  lemma SameTokens(a: Case, b: Case)
    requires Reason(a) == Accepted && Reason(b) == Accepted && Suffix(a) == Suffix(b)
    ensures Tokens(a) == Tokens(b)
  {
    SuffixIsTokens(a);
    SuffixIsTokens(b);
    TokensAreFree(a);
    TokensAreFree(b);
    NoEmptySuffix(a);
    NoEmptySuffix(b);
    if Tokens(a) != [] && Tokens(b) != [] {
      SplitOfJoin(Tokens(a), '_');
      SplitOfJoin(Tokens(b), '_');
    }
  }

  lemma NoEmptySuffix(c: Case)
    requires Reason(c) == Accepted
    ensures Suffix(c) == "" <==> Tokens(c) == []
  {
    PartsAreNotEmpty(c);
    PartsAre(c);
    assert Parts(c) == [] <==> Tokens(c) == [];
  }

  lemma NoUnderscore(payload: string)
    requires Free(payload, '_')
    ensures Underscores(payload) == 0
  {
    SplitOfJoin([payload], '_');
  }

  /** Without underscores in payload names, one id is one point. */
  lemma PlainPayloadsAreSafe(a: Case, b: Case)
    requires Reason(a) == Accepted && Reason(b) == Accepted && DotFree(a) && DotFree(b)
    requires Free(a.payload, '_') && Free(b.payload, '_') && IdOf(a) == IdOf(b)
    ensures SameDimensions(a, b)
  {
    NoUnderscore(a.payload);
    NoUnderscore(b.payload);
    CaseIdIsInjectiveExactly(a, b);
  }

  /** With them two accepted points can share an id. */
  lemma UnderscoreConfusesTwoCases(c: Case)
    requires Reason(c) == Accepted && c.payload == "x" && c.batch == 5
    ensures var other := c.(payload := "x_batch5", batch := 1000);
      Reason(other) == Accepted && IdOf(other) == IdOf(c) && !SameDimensions(c, other)
  {
    var other := c.(payload := "x_batch5", batch := 1000);
    assert Reason(other) == Accepted;
    SameSuffix(c, other);
    SameSuffixSameId(c, other);
  }

  lemma SameSuffix(c: Case, other: Case)
    requires Reason(c) == Accepted && c.payload == "x" && c.batch == 5
    requires Reason(other) == Accepted && other.payload == "x_batch5" && other.batch == 1000
    requires Early(other) == Early(c) && SyncPart(other) == SyncPart(c)
    requires RatioPart(other) == RatioPart(c) && CheckpointPart(other) == CheckpointPart(c)
    ensures Suffix(c) == Suffix(other)
  {
    var others := SyncPart(c) + (RatioPart(c) + CheckpointPart(c));
    BatchFive();
    assert "payload_" + c.payload == "payload_x" && "payload_" + other.payload == "payload_x_batch5";
    SuffixWith(c, "payload_x", ["batch5"], others);
    SuffixWith(other, "payload_x_batch5", [], others);
    BothParts(Early(c), others);
  }

  lemma SuffixWith(c: Case, payload: string, batch: seq<string>, others: seq<string>)
    requires Reason(c) == Accepted && c.payload != "normal" && "payload_" + c.payload == payload
    requires BatchPart(c) == batch && others == SyncPart(c) + (RatioPart(c) + CheckpointPart(c))
    ensures Suffix(c) == Join(Early(c) + [payload] + (batch + others), '_')
  {
    PartsAre(c);
  }

  lemma SameSuffixSameId(a: Case, b: Case)
    requires a.workload == b.workload && a.target == b.target && a.scale == b.scale && Suffix(a) == Suffix(b)
    ensures IdOf(a) == IdOf(b)
  {
  }

  lemma BatchFive()
    ensures "batch" + Decimal(5) == "batch5"
  {
    assert Digit(5) == '5';
  }

  lemma BothParts(early: seq<string>, others: seq<string>)
    ensures Join(early + ["payload_x"] + (["batch5"] + others), '_')
         == Join(early + ["payload_x_batch5"] + ([] + others), '_')
  {
    var inner := ["payload_x", "batch5"];
    assert inner[1..] == ["batch5"] && [] + others == others;
    assert Join(inner, '_') == "payload_x" + (['_'] + "batch5") == "payload_x_batch5";
    JoinInner(early, inner, others, '_');
    assert early + ["payload_x"] + (["batch5"] + others) == early + inner + others;
  }
}
