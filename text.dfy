/** The few pieces of Python string behaviour the tools rely on: truthiness of an
    optional string, `str.join`, integer formatting, `str.lower` and the `in`
    substring test. */
module Text {
  import opened Wrappers

  /** Python truthiness of an optional string: present and non-empty. */
  predicate Truthy(s: Option<string>) {
    s.Some? && s.value != ""
  }

  /** `sep.join(parts)`. */
  function Join(sep: string, parts: seq<string>): string {
    if |parts| == 0 then ""
    else if |parts| == 1 then parts[0]
    else Join(sep, parts[..|parts| - 1]) + sep + parts[|parts| - 1]
  }

  /** The total length of the parts. */
  function TotalLength(parts: seq<string>): nat {
    if parts == [] then 0 else TotalLength(parts[..|parts| - 1]) + |parts[|parts| - 1]|
  }

  /** The joined text is as long as the parts plus one separator fewer than
      there are parts. */
  lemma {:induction false} JoinLength(sep: string, parts: seq<string>)
    requires parts != []
    ensures |Join(sep, parts)| == TotalLength(parts) + (|parts| - 1) * |sep|
  {
    if |parts| == 1 {
      assert parts[..|parts| - 1] == [];
    } else {
      var init := parts[..|parts| - 1];
      JoinLength(sep, init);
      assert (|init| - 1) * |sep| + |sep| == |init| * |sep|;
    }
  }

  /** Where part i starts in the joined text: after the parts before it and
      one separator for each of them. */
  function Offset(sep: string, parts: seq<string>, i: nat): nat
    requires i <= |parts|
  {
    TotalLength(parts[..i]) + i * |sep|
  }

  /** Each part of the joined text occurs at its offset. */
  lemma {:induction false} JoinLayout(sep: string, parts: seq<string>)
    requires parts != []
    ensures forall i :: 0 <= i < |parts| ==> OccursAt(Join(sep, parts), parts[i], Offset(sep, parts, i))
  {
    if |parts| == 1 {
      assert parts[..0] == [];
    } else {
      var init := parts[..|parts| - 1];
      JoinLayout(sep, init);
      forall i | 0 <= i < |parts|
        ensures OccursAt(Join(sep, parts), parts[i], Offset(sep, parts, i))
      {
        if i < |init| {
          JoinEarlierPart(sep, parts, i);
        } else {
          JoinLastPart(sep, parts);
        }
      }
    }
  }

  lemma JoinEarlierPart(sep: string, parts: seq<string>, i: nat)
    requires |parts| > 1 && i < |parts| - 1
    requires OccursAt(Join(sep, parts[..|parts| - 1]), parts[i], Offset(sep, parts[..|parts| - 1], i))
    ensures OccursAt(Join(sep, parts), parts[i], Offset(sep, parts, i))
  {
    var init := parts[..|parts| - 1];
    var j := Join(sep, init);
    assert Join(sep, parts) == j + sep + parts[|parts| - 1];
    assert parts[..i] == init[..i];
    var off := Offset(sep, parts, i);
    assert off == Offset(sep, init, i);
    assert Join(sep, parts)[off..off + |parts[i]|] == j[off..off + |parts[i]|];
  }

  lemma JoinLastPart(sep: string, parts: seq<string>)
    requires |parts| > 1
    ensures OccursAt(Join(sep, parts), parts[|parts| - 1], Offset(sep, parts, |parts| - 1))
  {
    var n := |parts| - 1;
    var init, last := parts[..n], parts[n];
    var j := Join(sep, init);
    var all := Join(sep, parts);
    JoinLength(sep, init);
    MulSucc(n - 1, |sep|);
    assert all == j + sep + last;
    assert |j| + |sep| == TotalLength(init) + n * |sep|;
    assert parts[..n] == init;
    assert Offset(sep, parts, n) == |j| + |sep|;
    assert all[|j| + |sep|..] == last;
  }

  lemma MulSucc(a: nat, b: nat)
    ensures (a + 1) * b == a * b + b
  {
  }

  // ----- integers as decimal text (f"{n}") -----

  function DigitChar(d: nat): char
    requires d < 10
  {
    ('0' as int + d) as char
  }

  function DigitValue(c: char): int {
    c as int - '0' as int
  }

  /** Decimal digits of a natural number, most significant first, no leading zeros. */
  function NatToString(n: nat): string
    decreases n
  {
    if n < 10 then [DigitChar(n)] else NatToString(n / 10) + [DigitChar(n % 10)]
  }

  /** Python's `str(i)` for an `int`: a minus sign for negative numbers, then the digits. */
  function IntToString(i: int): string {
    if i < 0 then "-" + NatToString(-i) else NatToString(i)
  }

  /** Reads decimal digits back (the partner of NatToString). */
  function ParseNat(s: string): int {
    if s == [] then 0 else ParseNat(s[..|s| - 1]) * 10 + DigitValue(s[|s| - 1])
  }

  /** Reads an optionally signed decimal number back (the partner of IntToString). */
  function ParseInt(s: string): int {
    if |s| > 0 && s[0] == '-' then -ParseNat(s[1..]) else ParseNat(s)
  }

  lemma {:induction false} NatToStringRoundTrip(n: nat)
    ensures NatToString(n) != [] && '0' <= NatToString(n)[0] <= '9'
    ensures ParseNat(NatToString(n)) == n
    decreases n
  {
    if n >= 10 {
      NatToStringRoundTrip(n / 10);
      var s := NatToString(n / 10) + [DigitChar(n % 10)];
      assert s[..|s| - 1] == NatToString(n / 10);
    }
  }

  /** Formatting an integer loses nothing: it can be read back. */
  lemma IntToStringRoundTrip(i: int)
    ensures ParseInt(IntToString(i)) == i
  {
    if i < 0 {
      NatToStringRoundTrip(-i);
      assert IntToString(i)[1..] == NatToString(-i);
    } else {
      NatToStringRoundTrip(i);
    }
  }

  /** Distinct integers are rendered as distinct text. */
  lemma IntToStringInjective(a: int, b: int)
    ensures IntToString(a) == IntToString(b) ==> a == b
  {
    IntToStringRoundTrip(a);
    IntToStringRoundTrip(b);
  }

  // ----- str.lower(), ASCII letters only -----

  function LowerChar(c: char): char {
    if 'A' <= c <= 'Z' then (c as int + 32) as char else c
  }

  function Lower(s: string): string {
    seq(|s|, i requires 0 <= i < |s| => LowerChar(s[i]))
  }

  /** Lower-casing keeps the length, leaves no upper-case letter and is idempotent. */
  lemma LowerNormalises(s: string)
    ensures |Lower(s)| == |s|
    ensures forall i :: 0 <= i < |s| ==> !('A' <= Lower(s)[i] <= 'Z')
    ensures Lower(Lower(s)) == Lower(s)
  {
  }

  // ----- the `in` operator on strings -----

  /** `needle` occurs in `hay` starting at position `i`. */
  predicate OccursAt(hay: string, needle: string, i: nat) {
    i + |needle| <= |hay| && hay[i..i + |needle|] == needle
  }

  /** The middle part of a concatenation occurs right after the first part. */
  lemma OccursInMiddle(a: string, b: string, c: string)
    ensures OccursAt(a + b + c, b, |a|)
  {
    assert (a + b + c)[|a|..|a| + |b|] == b;
  }

  /** Python's `needle in hay` for strings. */
  predicate Contains(hay: string, needle: string)
    decreases |hay|
  {
    needle <= hay || (hay != [] && Contains(hay[1..], needle))
  }

  /** `Contains` is exactly "occurs at some position". */
  lemma {:induction false} ContainsIff(hay: string, needle: string)
    ensures Contains(hay, needle) <==> exists i: nat :: OccursAt(hay, needle, i)
    decreases |hay|
  {
    if needle <= hay {
      assert OccursAt(hay, needle, 0);
    } else if hay != [] {
      ContainsIff(hay[1..], needle);
      if Contains(hay[1..], needle) {
        var j: nat :| OccursAt(hay[1..], needle, j);
        assert hay[j + 1..j + 1 + |needle|] == hay[1..][j..j + |needle|];
        assert OccursAt(hay, needle, j + 1);
      }
      if exists i: nat :: OccursAt(hay, needle, i) {
        var i: nat :| OccursAt(hay, needle, i);
        assert i != 0;
        assert hay[1..][i - 1..i - 1 + |needle|] == hay[i..i + |needle|];
        assert OccursAt(hay[1..], needle, i - 1);
      }
    }
  }
}
