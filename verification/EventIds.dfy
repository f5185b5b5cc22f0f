// The event_id text SYMBOL-id-time, written by the producer and by the backfill.
module EventIds {
  import opened Options

  function Digit(d: nat): char
    requires d < 10
  {
    "0123456789"[d]
  }

  function DigitValue(c: char): Option<nat> {
    if '0' <= c <= '9' then Some(c as int - '0' as int) else None
  }

  function NatText(n: nat): (s: string)
    ensures s != [] && '-' !in s
  {
    if n < 10 then [Digit(n)] else NatText(n / 10) + [Digit(n % 10)]
  }

  function IntText(i: int): string {
    if i < 0 then "-" + NatText(-i) else NatText(i)
  }

  function Dashed(a: string, b: string): string {
    a + "-" + b
  }

  function Encode(symbol: string, id: int, time: int): string {
    Dashed(Dashed(symbol, IntText(id)), IntText(time))
  }

  // ---------- the inverse ----------

  function ParseNat(s: string): Option<nat> {
    if s == [] then None
    else
      var n := |s| - 1;
      var last := DigitValue(s[n]);
      if last.None? then None
      else if n == 0 then last
      else
        var rest := ParseNat(s[..n]);
        if rest.None? then None else Some(10 * rest.value + last.value)
  }

  // The texts around the last dash.
  function SplitLast(s: string): Option<(string, string)> {
    if s == [] then None
    else
      var n := |s| - 1;
      if s[n] == '-' then Some((s[..n], []))
      else
        var rest := SplitLast(s[..n]);
        if rest.None? then None else Some((rest.value.0, rest.value.1 + [s[n]]))
  }

  // A dash before the last one is the sign of the time.
  function Decode(s: string): Option<(string, nat, int)> {
    var outer := SplitLast(s);
    if outer.None? then None
    else
      var head := outer.value.0;
      var negative := head != [] && head[|head| - 1] == '-';
      var inner := SplitLast(if negative then head[..|head| - 1] else head);
      if inner.None? then None
      else
        var id, time := ParseNat(inner.value.1), ParseNat(outer.value.1);
        if id.None? || time.None? then None
        else Some((inner.value.0, id.value, if negative then 0 - time.value else time.value))
  }

  lemma {:induction false} ParseNatText(n: nat)
    ensures ParseNat(NatText(n)) == Some(n)
  {
    if n >= 10 {
      ParseNatText(n / 10);
      var s := NatText(n);
      assert s[..|s| - 1] == NatText(n / 10);
    }
  }

  lemma {:induction false} SplitLastOf(a: string, b: string)
    requires '-' !in b
    ensures SplitLast(Dashed(a, b)) == Some((a, b))
  {
    var s := a + "-" + b;
    var n := |s| - 1;
    if b == [] {
      assert s[..n] == a;
    } else {
      var m := |b| - 1;
      SplitLastOf(a, b[..m]);
      assert s[..n] == a + "-" + b[..m];
      assert s[n] == b[m] && b[m] in b;
      assert b == b[..m] + [b[m]];
    }
  }

  // The text in full: the symbol, a dash, the id, a dash, the time; a number is its decimal digits,
  // the leading ones first, behind a minus sign if it is negative.
  lemma {:induction false} TextInFull(symbol: string, id: int, time: int)
    ensures Encode(symbol, id, time) == symbol + "-" + IntText(id) + "-" + IntText(time)
    ensures id >= 10 ==> IntText(id) == IntText(id / 10) + IntText(id % 10)
    ensures id < 0 ==> IntText(id) == "-" + IntText(0 - id)
    ensures IntText(0) == "0" && IntText(1) == "1" && IntText(2) == "2" && IntText(3) == "3" && IntText(4) == "4"
    ensures IntText(5) == "5" && IntText(6) == "6" && IntText(7) == "7" && IntText(8) == "8" && IntText(9) == "9"
  {
  }

  // A minus sign reads as one more dash of what is before it.
  lemma NegativeText(a: string, n: nat)
    requires n > 0
    ensures Dashed(a, IntText(0 - n)) == Dashed(a + "-", NatText(n))
  {
  }

  lemma LastOfDashed(a: string, b: string)
    ensures b != [] && '-' !in b ==> Dashed(a, b) != [] && Dashed(a, b)[|Dashed(a, b)| - 1] != '-'
    ensures |a + "-"| == |a| + 1 && (a + "-")[|a|] == '-' && (a + "-")[..|a|] == a
  {
    if b != [] {
      assert b[|b| - 1] in b;
    }
  }

  // The encoding can be read back, whatever the symbol and the sign of the time.
  lemma RoundTrip(symbol: string, id: nat, time: int)
    ensures Decode(Encode(symbol, id, time)) == Some((symbol, id, time))
  {
    hide Dashed, SplitLast, ParseNat, NatText;
    var head, size := Dashed(symbol, NatText(id)), if time < 0 then -time else time;
    LastOfDashed(symbol, NatText(id));
    SplitLastOf(symbol, NatText(id));
    ParseNatText(id);
    ParseNatText(size);
    if time < 0 {
      NegativeText(head, size);
      LastOfDashed(head, []);
      SplitLastOf(head + "-", NatText(size));
    } else {
      SplitLastOf(head, NatText(size));
    }
  }

  // A negative id borrows a dash from the symbol.
  function Canonical(symbol: string, id: int, time: int): (string, int, int) {
    if id < 0 then (symbol + "-", -id, time) else (symbol, id, time)
  }

  lemma CanonicalText(symbol: string, id: int, time: int)
    ensures var c := Canonical(symbol, id, time); Encode(c.0, c.1, c.2) == Encode(symbol, id, time)
  {
    hide Dashed, NatText;
    if id < 0 {
      NegativeText(symbol, -id);
    }
  }

  // Deduplicating by event_id is deduplicating by (symbol, id, time), up to the one ambiguity
  // that a negative id can be read as a positive one of a symbol ending in a dash. For
  // non-negative ids equal texts mean equal triples.
  lemma SameTextIff(s1: string, id1: int, t1: int, s2: string, id2: int, t2: int)
    ensures Encode(s1, id1, t1) == Encode(s2, id2, t2) <==> Canonical(s1, id1, t1) == Canonical(s2, id2, t2)
    ensures id1 >= 0 && id2 >= 0 ==>
      (Encode(s1, id1, t1) == Encode(s2, id2, t2) <==> s1 == s2 && id1 == id2 && t1 == t2)
  {
    hide Encode, Decode;
    CanonicalText(s1, id1, t1);
    CanonicalText(s2, id2, t2);
    var c1, c2 := Canonical(s1, id1, t1), Canonical(s2, id2, t2);
    RoundTrip(c1.0, c1.1, c1.2);
    RoundTrip(c2.0, c2.1, c2.2);
  }
}
