/** A torn write is never taken for a record (loadtests/json_value.cpp). */
module JsonTorn {
  // Of a text that holds an object, `parse_json` accepts a cut just when it keeps the closing brace.
  // Both directions are inductions over the whole recursive-descent parser.

  import opened Text
  import opened Json

  // ----- a longer text -----

  lemma {:induction false} SpaceExtends(t: string, u: string, i: nat)
    requires t <= u && i <= |t| && SkipSpace(t, i) < |t|
    ensures SkipSpace(u, i) == SkipSpace(t, i)
    decreases |t| - i
  {
    if IsSpace(t[i]) {
      SpaceExtends(t, u, i + 1);
    }
  }

  lemma {:induction false} NumberExtends(t: string, u: string, i: nat)
    requires t <= u && i <= |t| && NumberEnd(t, i) < |t|
    ensures NumberEnd(u, i) == NumberEnd(t, i)
    decreases |t| - i
  {
    if IsNumberChar(t[i]) {
      NumberExtends(t, u, i + 1);
    }
  }

  lemma {:induction false} StringTailExtends(t: string, u: string, i: nat, out: string)
    requires t <= u && i <= |t| && StringTail(t, i, out).Ok?
    ensures StringTail(u, i, out) == StringTail(t, i, out)
    decreases |t| - i
  {
    if t[i] == '"' {
    } else if t[i] != '\\' {
      StringTailExtends(t, u, i + 1, out + [t[i]]);
    } else if t[i + 1] == 'u' {
      assert u[i + 2..i + 6] == t[i + 2..i + 6];
      StringTailExtends(t, u, i + 6, out + Utf8(HexRun(t[i + 2..i + 6], 0, false).value));
    } else {
      StringTailExtends(t, u, i + 2, out + [Unescape(t[i + 1]).value]);
    }
  }

  /** A value that is complete in t, with t going on behind it unless its own last character
      closes it, is the same value in every longer text. */
  lemma {:induction false} ValueExtends(t: string, u: string, i: nat)
    requires t <= u && i <= |t| && ParseValue(t, i).Ok?
    requires ParseValue(t, i).value.Number? ==> ParseValue(t, i).next < |t|
    ensures ParseValue(u, i) == ParseValue(t, i)
    decreases |t| - i, 1
  {
    hide Members, Items, StringTail;
    if t[i] == '{' {
      SpaceExtends(t, u, i + 1);
      var j := SkipSpace(t, i + 1);
      if t[j] != '}' {
        MembersExtend(t, u, j, []);
      }
    } else if t[i] == '[' {
      SpaceExtends(t, u, i + 1);
      var j := SkipSpace(t, i + 1);
      if t[j] != ']' {
        ItemsExtend(t, u, j, []);
      }
    } else if t[i] == '"' {
      StringTailExtends(t, u, i + 1, "");
    } else if t[i] == 't' || t[i] == 'f' {
      LiteralExtends(t, u, i, "true");
      LiteralExtends(t, u, i, "false");
    } else if t[i] == 'n' {
      LiteralExtends(t, u, i, "null");
    } else {
      NumberExtends(t, u, i);
      var j := NumberEnd(t, i);
      assert u[i..j] == t[i..j];
    }
  }

  lemma LiteralExtends(t: string, u: string, i: nat, s: string)
    requires t <= u
    ensures At(t, i, s) ==> At(u, i, s)
    ensures i + |s| <= |t| ==> At(t, i, s) == At(u, i, s)
  {
    if i + |s| <= |t| {
      assert u[i..i + |s|] == t[i..i + |s|];
    }
  }

  lemma StringExtends(t: string, u: string, i: nat)
    requires t <= u && i <= |t| && ParseString(t, i).Ok?
    ensures ParseString(u, i) == ParseString(t, i)
  {
    StringTailExtends(t, u, i + 1, "");
  }

  lemma KeyExtends(t: string, u: string, i: nat)
    requires t <= u && i <= |t| && ParseKey(t, i).Ok?
    ensures ParseKey(u, i) == ParseKey(t, i)
  {
    SpaceExtends(t, u, i);
    StringExtends(t, u, SkipSpace(t, i));
    SpaceExtends(t, u, ParseString(t, SkipSpace(t, i)).next);
  }

  lemma {:induction false} SpacedExtends(t: string, u: string, i: nat)
    requires t <= u && i <= |t| && ParseSpaced(t, i).Ok? && ParseSpaced(t, i).next < |t|
    ensures ParseSpaced(u, i) == ParseSpaced(t, i)
    decreases |t| - i, 2
  {
    SpaceExtends(t, u, i);
    ValueExtends(t, u, SkipSpace(t, i));
  }

  lemma {:induction false} MemberExtends(t: string, u: string, i: nat)
    requires t <= u && i <= |t| && ParseMember(t, i).Ok? && ParseMember(t, i).next < |t|
    ensures ParseMember(u, i) == ParseMember(t, i)
    decreases |t| - i, 2
  {
    KeyExtends(t, u, i);
    SpacedExtends(t, u, ParseKey(t, i).next);
  }

  lemma {:induction false} MemberTurnExtends(t: string, u: string, i: nat)
    requires t <= u && i <= |t| && !MemberTurn(t, i).Stop?
    ensures MemberTurn(u, i) == MemberTurn(t, i)
    decreases |t| - i, 3
  {
    MemberExtends(t, u, i);
    SpaceExtends(t, u, ParseMember(t, i).next);
  }

  lemma {:induction false} MembersExtend(t: string, u: string, i: nat, acc: seq<Member>)
    requires t <= u && i <= |t| && Members(t, i, acc).Ok?
    ensures Members(u, i, acc) == Members(t, i, acc)
    decreases |t| - i, 4
  {
    MemberTurnExtends(t, u, i);
    var turn := MemberTurn(t, i);
    if turn.More? {
      MembersExtend(t, u, turn.next, acc + [turn.value]);
    }
  }

  lemma {:induction false} ItemTurnExtends(t: string, u: string, i: nat)
    requires t <= u && i <= |t| && !ItemTurn(t, i).Stop?
    ensures ItemTurn(u, i) == ItemTurn(t, i)
    decreases |t| - i, 3
  {
    SpacedExtends(t, u, i);
    SpaceExtends(t, u, ParseSpaced(t, i).next);
  }

  lemma {:induction false} ItemsExtend(t: string, u: string, i: nat, acc: seq<Json>)
    requires t <= u && i <= |t| && Items(t, i, acc).Ok?
    ensures Items(u, i, acc) == Items(t, i, acc)
    decreases |t| - i, 4
  {
    ItemTurnExtends(t, u, i);
    var turn := ItemTurn(t, i);
    if turn.More? {
      ItemsExtend(t, u, turn.next, acc + [turn.value]);
    }
  }

  // ----- a shorter text: u is t cut somewhere behind what is read -----

  lemma {:induction false} SpaceShrinks(t: string, u: string, i: nat)
    requires u <= t && i <= |u| && SkipSpace(t, i) <= |u|
    ensures SkipSpace(u, i) == SkipSpace(t, i)
    decreases |t| - i
  {
    if i < |t| && IsSpace(t[i]) {
      SpaceShrinks(t, u, i + 1);
    }
  }

  lemma {:induction false} NumberShrinks(t: string, u: string, i: nat)
    requires u <= t && i <= |u| && NumberEnd(t, i) <= |u|
    ensures NumberEnd(u, i) == NumberEnd(t, i)
    decreases |t| - i
  {
    if i < |t| && IsNumberChar(t[i]) {
      NumberShrinks(t, u, i + 1);
    }
  }

  lemma {:induction false} StringTailShrinks(t: string, u: string, i: nat, out: string)
    requires u <= t && i <= |u| && StringTail(t, i, out).Ok? && StringTail(t, i, out).next <= |u|
    ensures StringTail(u, i, out) == StringTail(t, i, out)
    decreases |t| - i
  {
    if t[i] == '"' {
    } else if t[i] != '\\' {
      StringTailShrinks(t, u, i + 1, out + [t[i]]);
    } else if t[i + 1] == 'u' {
      assert u[i + 2..i + 6] == t[i + 2..i + 6];
      StringTailShrinks(t, u, i + 6, out + Utf8(HexRun(t[i + 2..i + 6], 0, false).value));
    } else {
      StringTailShrinks(t, u, i + 2, out + [Unescape(t[i + 1]).value]);
    }
  }

  /** The parser reads nothing behind the value it returns. */
  lemma {:induction false} ValueShrinks(t: string, u: string, i: nat)
    requires u <= t && i <= |u| && ParseValue(t, i).Ok? && ParseValue(t, i).next <= |u|
    ensures ParseValue(u, i) == ParseValue(t, i)
    decreases |t| - i, 1
  {
    hide Members, Items, StringTail;
    if t[i] == '{' {
      var j := SkipSpace(t, i + 1);
      SpaceShrinks(t, u, i + 1);
      if t[j] != '}' {
        MembersShrink(t, u, j, []);
      }
    } else if t[i] == '[' {
      var j := SkipSpace(t, i + 1);
      SpaceShrinks(t, u, i + 1);
      if t[j] != ']' {
        ItemsShrink(t, u, j, []);
      }
    } else if t[i] == '"' {
      StringTailShrinks(t, u, i + 1, "");
    } else if t[i] == 't' || t[i] == 'f' {
      LiteralShrinks(t, u, i, "true");
      LiteralShrinks(t, u, i, "false");
    } else if t[i] == 'n' {
      LiteralShrinks(t, u, i, "null");
    } else {
      NumberShrinks(t, u, i);
      var j := NumberEnd(t, i);
      assert u[i..j] == t[i..j];
    }
  }

  lemma LiteralShrinks(t: string, u: string, i: nat, s: string)
    requires u <= t
    ensures i + |s| <= |u| ==> At(u, i, s) == At(t, i, s)
    ensures !At(t, i, s) ==> !At(u, i, s)
  {
    if i + |s| <= |u| {
      assert u[i..i + |s|] == t[i..i + |s|];
    }
  }

  lemma KeyShrinks(t: string, u: string, i: nat)
    requires u <= t && i <= |u| && ParseKey(t, i).Ok? && ParseKey(t, i).next <= |u|
    ensures ParseKey(u, i) == ParseKey(t, i)
  {
    var j := SkipSpace(t, i);
    SpaceShrinks(t, u, i);
    StringTailShrinks(t, u, j + 1, "");
    SpaceShrinks(t, u, ParseString(t, j).next);
  }

  lemma {:induction false} SpacedShrinks(t: string, u: string, i: nat)
    requires u <= t && i <= |u| && ParseSpaced(t, i).Ok? && ParseSpaced(t, i).next <= |u|
    ensures ParseSpaced(u, i) == ParseSpaced(t, i)
    decreases |t| - i, 2
  {
    SpaceShrinks(t, u, i);
    ValueShrinks(t, u, SkipSpace(t, i));
  }

  lemma {:induction false} MemberShrinks(t: string, u: string, i: nat)
    requires u <= t && i <= |u| && ParseMember(t, i).Ok? && ParseMember(t, i).next <= |u|
    ensures ParseMember(u, i) == ParseMember(t, i)
    decreases |t| - i, 2
  {
    KeyShrinks(t, u, i);
    SpacedShrinks(t, u, ParseKey(t, i).next);
  }

  lemma {:induction false} MemberTurnShrinks(t: string, u: string, i: nat)
    requires u <= t && i <= |u| && !MemberTurn(t, i).Stop? && MemberTurn(t, i).next <= |u|
    ensures MemberTurn(u, i) == MemberTurn(t, i)
    decreases |t| - i, 3
  {
    MemberShrinks(t, u, i);
    SpaceShrinks(t, u, ParseMember(t, i).next);
  }

  lemma {:induction false} MembersShrink(t: string, u: string, i: nat, acc: seq<Member>)
    requires u <= t && i <= |u| && Members(t, i, acc).Ok? && Members(t, i, acc).next <= |u|
    ensures Members(u, i, acc) == Members(t, i, acc)
    decreases |t| - i, 4
  {
    MemberTurnShrinks(t, u, i);
    var turn := MemberTurn(t, i);
    if turn.More? {
      MembersShrink(t, u, turn.next, acc + [turn.value]);
    }
  }

  lemma {:induction false} ItemTurnShrinks(t: string, u: string, i: nat)
    requires u <= t && i <= |u| && !ItemTurn(t, i).Stop? && ItemTurn(t, i).next <= |u|
    ensures ItemTurn(u, i) == ItemTurn(t, i)
    decreases |t| - i, 3
  {
    SpacedShrinks(t, u, i);
    SpaceShrinks(t, u, ParseSpaced(t, i).next);
  }

  lemma {:induction false} ItemsShrink(t: string, u: string, i: nat, acc: seq<Json>)
    requires u <= t && i <= |u| && Items(t, i, acc).Ok? && Items(t, i, acc).next <= |u|
    ensures Items(u, i, acc) == Items(t, i, acc)
    decreases |t| - i, 4
  {
    ItemTurnShrinks(t, u, i);
    var turn := ItemTurn(t, i);
    if turn.More? {
      ItemsShrink(t, u, turn.next, acc + [turn.value]);
    }
  }

  // ----- main result -----

  /** `parse_json` accepts the text as an object. */
  predicate IsRecord(t: string) {
    ParseJson(t).Ok? && ParseJson(t).value.Obj?
  }

  /** The position right behind the closing brace. */
  function RecordEnd(t: string): (e: nat)
    requires IsRecord(t)
    ensures 0 < e <= |t|
  {
    ParseSpaced(t, 0).next
  }

  /** A cut of a record is a record, and then the same one, exactly when it keeps the brace. */
  lemma CutIsRecordExactly(t: string, k: nat)
    requires IsRecord(t) && k <= |t|
    ensures ParseJson(t[..k]).Ok? <==> k >= RecordEnd(t)
    ensures k >= RecordEnd(t) ==> ParseJson(t[..k]).value == ParseJson(t).value
  {
    var i, e := SkipSpace(t, 0), RecordEnd(t);
    if k >= e {
      SpacedShrinks(t, t[..k], 0);
      AllSpace(t, e);
      AllSpaceShrinks(t, k, e);
    } else if ParseJson(t[..k]).Ok? {
      var i' := SkipSpace(t[..k], 0);
      SpaceExtends(t[..k], t, 0);
      ObjectOpensWithBrace(t, i);
      ValueIsNoNumber(t[..k], i');
      ValueExtends(t[..k], t, i');
      assert false;
    }
  }

  lemma ObjectOpensWithBrace(t: string, i: nat)
    requires i <= |t| && ParseValue(t, i).Ok? && ParseValue(t, i).value.Obj?
    ensures t[i] == '{'
  {
  }

  lemma ValueIsNoNumber(t: string, i: nat)
    requires i < |t| && t[i] == '{' && ParseValue(t, i).Ok?
    ensures !ParseValue(t, i).value.Number?
  {
  }

  lemma AllSpace(t: string, i: nat)
    requires i <= |t| && SkipSpace(t, i) == |t|
    ensures forall j :: i <= j < |t| ==> IsSpace(t[j])
  {
  }

  lemma AllSpaceShrinks(t: string, k: nat, i: nat)
    requires i <= k <= |t| && forall j :: i <= j < |t| ==> IsSpace(t[j])
    ensures SkipSpace(t[..k], i) == k
  {
    assert forall j :: i <= j < k ==> t[..k][j] == t[j];
  }

  /** The case the log relies on: a record that ends in its closing brace has no proper prefix
      that `parse_json` accepts as anything. */
  lemma NoProperPrefixIsAccepted(t: string, k: nat)
    requires IsRecord(t) && t[|t| - 1] == '}' && k < |t|
    ensures !ParseJson(t[..k]).Ok?
  {
    var e := RecordEnd(t);
    AllSpace(t, e);
    CutIsRecordExactly(t, k);
  }
}
