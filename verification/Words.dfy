/** What splitting a command line on spaces means, and what its numbers mean. */
module Words {
  import opened Bytes

  /** The first position at or after `from` that is not a space. */
  function SkipSpaces(s: seq<byte>, from: nat): (k: nat)
    requires from <= |s|
    ensures from <= k <= |s|
    ensures forall i :: from <= i < k ==> s[i] == SPACE
    ensures k < |s| ==> s[k] != SPACE
    decreases |s| - from
  {
    if from == |s| || s[from] != SPACE then from else SkipSpaces(s, from + 1)
  }

  /** The first position at or after `from` that is a space. */
  function WordEnd(s: seq<byte>, from: nat): (k: nat)
    requires from <= |s|
    ensures from <= k <= |s|
    ensures forall i :: from <= i < k ==> s[i] != SPACE
    ensures k < |s| ==> s[k] == SPACE
    decreases |s| - from
  {
    if from == |s| || s[from] == SPACE then from else WordEnd(s, from + 1)
  }

  /** The words from `from` on, as half-open ranges. */
  function Spans(s: seq<byte>, from: nat): (r: seq<(nat, nat)>)
    requires from <= |s|
    ensures forall i :: 0 <= i < |r| ==> from <= r[i].0 < r[i].1 <= |s|
    decreases |s| - from
  {
    var a := SkipSpaces(s, from);
    if a == |s| then []
    else
      var b := WordEnd(s, a);
      [(a, b)] + Spans(s, b)
  }

  function WordsIn(s: seq<byte>, spans: seq<(nat, nat)>): (ws: seq<seq<byte>>)
    requires forall i :: 0 <= i < |spans| ==> spans[i].0 <= spans[i].1 <= |s|
    ensures |ws| == |spans|
    ensures forall i :: 0 <= i < |ws| ==> ws[i] == s[spans[i].0..spans[i].1]
  {
    if spans == [] then [] else [s[spans[0].0..spans[0].1]] + WordsIn(s, spans[1..])
  }

  function WordsOf(s: seq<byte>): (ws: seq<seq<byte>>) {
    WordsIn(s, Spans(s, 0))
  }

  predicate InSpan(w: (nat, nat), i: nat) {
    w.0 <= i < w.1
  }

  /** A maximal run of non-spaces: none inside, a space or an end on either side. */
  predicate MaximalRun(s: seq<byte>, w: (nat, nat)) {
    && w.0 < w.1 <= |s|
    && (forall i :: w.0 <= i < w.1 ==> s[i] != SPACE)
    && (w.0 == 0 || s[w.0 - 1] == SPACE)
    && (w.1 == |s| || s[w.1] == SPACE)
  }

  lemma {:induction false} SpansAreRuns(s: seq<byte>, from: nat)
    requires from <= |s| && (from == 0 || from == |s| || s[from] == SPACE || s[from - 1] == SPACE)
    ensures forall w :: w in Spans(s, from) ==> MaximalRun(s, w)
    decreases |s| - from
  {
    var a := SkipSpaces(s, from);
    if a < |s| {
      SpansAreRuns(s, WordEnd(s, a));
      assert MaximalRun(s, (a, WordEnd(s, a)));
    }
  }

  lemma {:induction false} SpansCover(s: seq<byte>, from: nat, i: nat)
    requires from <= i < |s| && s[i] != SPACE
    ensures exists w :: w in Spans(s, from) && InSpan(w, i)
    decreases |s| - from
  {
    var a := SkipSpaces(s, from);
    var b := WordEnd(s, a);
    assert (a, b) in Spans(s, from);
    if b <= i {
      SpansCover(s, b, i);
    } else {
      assert InSpan((a, b), i);
    }
  }

  lemma {:induction false} SpansOrdered(s: seq<byte>, from: nat)
    requires from <= |s|
    ensures var spans := Spans(s, from);
            forall k, l :: 0 <= k < l < |spans| ==> spans[k].1 < spans[l].0
    decreases |s| - from
  {
    var a := SkipSpaces(s, from);
    if a < |s| {
      var b := WordEnd(s, a);
      SpansOrdered(s, b);
      var rest := Spans(s, b);
      assert forall w :: w in rest ==> b < w.0 by {
        if b < |s| {
          SkipOneSpace(s, b);
        }
      }
    }
  }

  /**
   The words of a command line are exactly its maximal runs of non-spaces, from left to
   right: this fixes `Spans` without saying how it is computed.
   */
  lemma WordsAreTheMaximalRuns(s: seq<byte>, w: (nat, nat))
    ensures w in Spans(s, 0) <==> MaximalRun(s, w)
    ensures var spans := Spans(s, 0);
            forall k, l :: 0 <= k < l < |spans| ==> spans[k].1 < spans[l].0
  {
    hide Spans;
    SpansAreRuns(s, 0);
    SpansOrdered(s, 0);
    if MaximalRun(s, w) {
      SpansCover(s, 0, w.0);
      var v :| v in Spans(s, 0) && InSpan(v, w.0);
      hide MaximalRun;
      OverlapIsSame(s, v, w);
    }
  }

  /** Two maximal runs that share a position are one. */
  lemma OverlapIsSame(s: seq<byte>, v: (nat, nat), w: (nat, nat))
    requires MaximalRun(s, v) && MaximalRun(s, w) && InSpan(v, w.0)
    ensures v == w
  {
  }

  /** Starting at a space or just behind it makes no difference. */
  lemma SkipOneSpace(s: seq<byte>, b: nat)
    requires b < |s| && s[b] == SPACE
    ensures Spans(s, b) == Spans(s, b + 1)
  {
  }

  // ---------------------------------------------------------------- numbers

  predicate IsDigit(c: byte) { 48 <= c <= 57 }

  /** `isspace` in the C locale. */
  predicate IsSpace(c: byte) { c == 32 || 9 <= c <= 13 }

  function DigitsValue(s: seq<byte>, acc: nat): (n: nat) {
    if s == [] || !IsDigit(s[0]) then acc else DigitsValue(s[1..], 10 * acc + (s[0] as int - 48))
  }

  /** `atoi`, for values an `int` can hold: leading blanks, one sign, digits, and 0 for anything else. */
  function Atoi(s: seq<byte>): (n: int) {
    if s == [] then 0
    else if IsSpace(s[0]) then Atoi(s[1..])
    else if s[0] == 45 then 0 - DigitsValue(s[1..], 0)
    else if s[0] == 43 then DigitsValue(s[1..], 0)
    else DigitsValue(s, 0)
  }

  function Decimal(n: nat): (s: seq<byte>)
    ensures s != [] && forall i :: 0 <= i < |s| ==> IsDigit(s[i])
  {
    if n < 10 then [(48 + n) as byte] else Decimal(n / 10) + [(48 + n % 10) as byte]
  }

  lemma {:induction false} DigitsAppend(s: seq<byte>, d: byte, acc: nat)
    requires IsDigit(d) && forall i :: 0 <= i < |s| ==> IsDigit(s[i])
    ensures DigitsValue(s + [d], acc) == 10 * DigitsValue(s, acc) + (d as int - 48)
    decreases |s|
  {
    if s != [] {
      assert (s + [d])[1..] == s[1..] + [d];
      DigitsAppend(s[1..], d, 10 * acc + (s[0] as int - 48));
    } else {
      assert s + [d] == [d];
      assert DigitsValue([d][1..], 10 * acc + (d as int - 48)) == 10 * acc + (d as int - 48);
    }
  }

  lemma {:induction false} DecimalValue(n: nat)
    ensures DigitsValue(Decimal(n), 0) == n
  {
    if n < 10 {
      assert Decimal(n)[1..] == [];
    } else {
      DecimalValue(n / 10);
      DigitsAppend(Decimal(n / 10), (48 + n % 10) as byte, 0);
    }
  }

  /** Every offset typed in decimal is read back as that offset. */
  lemma AtoiOfDecimal(n: nat)
    ensures Atoi(Decimal(n)) == n
    ensures n > 0 ==> Atoi([45] + Decimal(n)) == 0 - n
  {
    DecimalValue(n);
    assert ([45] + Decimal(n))[1..] == Decimal(n);
  }
}
