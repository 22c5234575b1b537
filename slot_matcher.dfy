/** Decimal rendering of numbers, as a JavaScript template literal writes an
    integer (`${n}`), with the parser that undoes it. */
module Decimal {
  predicate IsDigit(ch: char)
  {
    '0' <= ch <= '9'
  }

  predicate AllDigits(s: string)
  {
    forall i | 0 <= i < |s| :: IsDigit(s[i])
  }

  function DigitChar(d: nat): (ch: char)
    requires d < 10
    ensures IsDigit(ch) && ch as int - '0' as int == d
  {
    ('0' as int + d) as char
  }

  function DigitValue(ch: char): nat
    requires IsDigit(ch)
  {
    ch as int - '0' as int
  }

  /** The shortest decimal spelling of `n`: digits only, never empty. */
  function NatToString(n: nat): (s: string)
    ensures |s| > 0 && AllDigits(s)
    ensures n >= 10 ==> s[0] != '0'
  {
    if n < 10 then [DigitChar(n)] else NatToString(n / 10) + [DigitChar(n % 10)]
  }

  /** The value of a digit string, most significant digit first. */
  function ParseNat(s: string): nat
    requires AllDigits(s)
  {
    if |s| == 0 then 0 else ParseNat(s[..|s| - 1]) * 10 + DigitValue(s[|s| - 1])
  }

  /** Parsing undoes rendering. */
  lemma {:induction false} ParseNatToString(n: nat)
    ensures ParseNat(NatToString(n)) == n
  {
    var s := NatToString(n);
    if n >= 10 {
      ParseNatToString(n / 10);
      assert s[..|s| - 1] == NatToString(n / 10);
    }
  }

  /** `${x}` for an integer: a minus sign before the magnitude when negative. */
  function IntToString(x: int): string
  {
    if x < 0 then "-" + NatToString(-x) else NatToString(x)
  }
}

/** The socket tests and rendering of the calculator
    (`matchesSlotCriteria`, `formatSlotPattern`). */
module SlotMatcher {
  import opened Wrappers
  import opened SeqUtil
  import opened Decimal
  import opened CatalogTypes

  /** The weapon socket, written `W1` on screen. */
  const WeaponSlot: int := -1

  /** The comparator's order: the weapon socket first, then larger sockets
      before smaller ones. It is total and antisymmetric, so a sorted
      arrangement of a multiset of sockets is unique. */
  predicate SlotBefore(a: int, b: int)
  {
    a == WeaponSlot || (b != WeaponSlot && a >= b)
  }

  predicate SlotSorted(s: seq<int>)
  {
    forall i, j | 0 <= i < j < |s| :: SlotBefore(s[i], s[j])
  }

  /** Inserting one socket into a sorted arrangement keeps it sorted and adds
      exactly that socket. */
  function InsertSlot(x: int, s: seq<int>): (r: seq<int>)
    ensures multiset(r) == multiset(s) + multiset{x}
  {
    if |s| == 0 then [x]
    else if SlotBefore(x, s[0]) then [x] + s
    else
      assert s == [s[0]] + s[1..];
      [s[0]] + InsertSlot(x, s[1..])
  }

  lemma {:induction false} InsertSlotSorted(x: int, s: seq<int>)
    requires SlotSorted(s)
    ensures SlotSorted(InsertSlot(x, s))
  {
    if |s| > 0 && !SlotBefore(x, s[0]) {
      var tail := InsertSlot(x, s[1..]);
      InsertSlotSorted(x, s[1..]);
      forall i | 0 <= i < |tail| ensures SlotBefore(s[0], tail[i]) {
        assert tail[i] in multiset(tail);
        if tail[i] != x {
          assert tail[i] in multiset(s[1..]);
          var k :| 0 <= k < |s[1..]| && s[1..][k] == tail[i];
          assert s[k + 1] == tail[i];
        }
      }
    }
  }

  /** `[...slots].sort(comparator)`: a sorted permutation of the sockets. */
  function SortSlots(s: seq<int>): (r: seq<int>)
    ensures multiset(r) == multiset(s)
    ensures SlotSorted(r)
  {
    if |s| == 0 then []
    else
      assert s == [s[0]] + s[1..];
      InsertSlotSorted(s[0], SortSlots(s[1..]));
      InsertSlot(s[0], SortSlots(s[1..]))
  }

  /** Two sorted arrangements of the same sockets start alike. */
  lemma SortedHeads(a: seq<int>, b: seq<int>)
    requires SlotSorted(a) && SlotSorted(b) && multiset(a) == multiset(b) && |a| > 0
    ensures |b| > 0 && a[0] == b[0]
  {
    assert |b| == |multiset(b)| == |a|;
    assert a[0] in multiset(b);
    var k :| 0 <= k < |b| && b[k] == a[0];
    assert b[0] in multiset(a);
    var m :| 0 <= m < |a| && a[m] == b[0];
    assert SlotBefore(b[0], a[0]) by { assert k == 0 || SlotBefore(b[0], b[k]); }
    assert SlotBefore(a[0], b[0]) by { assert m == 0 || SlotBefore(a[0], a[m]); }
  }

  /** Two sorted arrangements of the same sockets are the same sequence. */
  lemma {:induction false} SortedUnique(a: seq<int>, b: seq<int>)
    requires SlotSorted(a) && SlotSorted(b) && multiset(a) == multiset(b)
    ensures a == b
  {
    if |a| == 0 {
      assert |b| == |multiset(b)| == 0;
    } else {
      SortedHeads(a, b);
      assert a == [a[0]] + a[1..];
      assert b == [b[0]] + b[1..];
      assert multiset(a[1..]) == multiset(b[1..]) by {
        assert multiset(a[1..]) == multiset(a) - multiset{a[0]};
        assert multiset(b[1..]) == multiset(b) - multiset{b[0]};
      }
      SortedUnique(a[1..], b[1..]);
    }
  }

  /** `matchesSlotCriteria`: an empty request matches every pattern; otherwise
      both socket lists are sorted and compared position by position. */
  predicate MatchesSlotCriteria(pattern: SlotPattern, targetSlots: seq<int>)
  {
    if |targetSlots| == 0 then true
    else
      var sortedPattern := SortSlots(pattern.slots);
      var sortedTarget := SortSlots(targetSlots);
      |sortedPattern| == |sortedTarget|
      && forall i | 0 <= i < |sortedTarget| :: sortedPattern[i] == sortedTarget[i]
  }

  /** A pattern matches exactly when the request is empty or names the same
      sockets, counted with multiplicity, in any order. */
  lemma MatchesSlotCriteriaIff(pattern: SlotPattern, targetSlots: seq<int>)
    ensures MatchesSlotCriteria(pattern, targetSlots)
        <==> |targetSlots| == 0 || multiset(pattern.slots) == multiset(targetSlots)
  {
    if |targetSlots| > 0 {
      var sp := SortSlots(pattern.slots);
      var st := SortSlots(targetSlots);
      if multiset(pattern.slots) == multiset(targetSlots) {
        SortedUnique(sp, st);
      }
      if MatchesSlotCriteria(pattern, targetSlots) {
        assert sp == st;
      }
    }
  }

  // ---------------------------------------------------------------------------
  // formatSlotPattern

  /** One socket on screen: `[W1]` for the weapon socket, `[n]` otherwise. */
  function SlotLabel(slot: int): string
  {
    if slot == WeaponSlot then "[W1]" else "[" + IntToString(slot) + "]"
  }

  /** `formatSlotPattern`: the labels of the sockets, in pattern order, joined
      without a separator. */
  function FormatSlotPattern(slots: seq<int>): string
  {
    if |slots| == 0 then "" else SlotLabel(slots[0]) + FormatSlotPattern(slots[1..])
  }

  predicate IsClose(ch: char)
  {
    ch == ']'
  }

  /** Reads back the text between a pair of brackets. */
  function ParseSlotLabel(token: string): Option<int>
  {
    if token == "W1" then Some(WeaponSlot)
    else if |token| > 1 && token[0] == '-' && AllDigits(token[1..]) then var n: int := ParseNat(token[1..]); Some(-n)
    else if |token| > 0 && AllDigits(token) then Some(ParseNat(token))
    else None
  }

  /** Reads a rendered pattern back, label by label. */
  function ParseSlotPattern(s: string): Option<seq<int>>
    decreases |s|
  {
    if |s| == 0 then Some([])
    else if s[0] != '[' then None
    else
      var j := FirstIndex(s, IsClose);
      if j < 1 then None
      else
        match ParseSlotLabel(s[1..j])
        case None => None
        case Some(v) =>
          match ParseSlotPattern(s[j + 1..])
          case None => None
          case Some(rest) => Some([v] + rest)
  }

  lemma SlotLabelShape(slot: int)
    ensures var l := SlotLabel(slot);
            |l| >= 3 && l[0] == '[' && l[|l| - 1] == ']'
            && (forall i | 0 <= i < |l| - 1 :: !IsClose(l[i]))
            && ParseSlotLabel(l[1..|l| - 1]) == Some(slot)
  {
    var l := SlotLabel(slot);
    if slot != WeaponSlot {
      var tok := IntToString(slot);
      assert l == "[" + tok + "]";
      assert l[1..|l| - 1] == tok;
      if slot < 0 {
        var mag := NatToString(-slot);
        assert tok[1..] == mag;
        ParseNatToString(-slot);
        assert tok != "W1" by { assert tok[0] == '-'; }
      } else {
        ParseNatToString(slot);
        assert tok != "W1" by { assert !IsDigit('W'); assert IsDigit(tok[0]); }
      }
    }
  }

  /** Rendering loses nothing: the rendered text reads back as the same
      sockets in the same order. */
  lemma {:induction false} FormatSlotPatternRoundTrip(slots: seq<int>)
    ensures ParseSlotPattern(FormatSlotPattern(slots)) == Some(slots)
  {
    if |slots| > 0 {
      var l := SlotLabel(slots[0]);
      var rest := FormatSlotPattern(slots[1..]);
      var s := l + rest;
      SlotLabelShape(slots[0]);
      assert s[0] == '[';
      var j := FirstIndex(s, IsClose);
      assert IsClose(s[|l| - 1]);
      assert forall i | 0 <= i < |l| - 1 :: s[i] == l[i];
      assert j == |l| - 1;
      assert s[1..j] == l[1..|l| - 1];
      assert s[j + 1..] == rest;
      FormatSlotPatternRoundTrip(slots[1..]);
      assert [slots[0]] + slots[1..] == slots;
    }
  }
}
