/** Byte strings and the library calls the server makes on them: find, search
    for the end of an HTTP head, decimal printing and std::stoull. */
module Text {

  datatype Option<+T> = None | Some(value: T)

  const TWO_64 := 0x1_0000_0000_0000_0000

  /** The value that a size_t holds for x. */
  function SizeT(x: int): (n: nat)
    ensures n < TWO_64
    ensures 0 <= x < TWO_64 ==> n == x
    ensures -TWO_64 <= x < 0 ==> n == x + TWO_64
  {
    x % TWO_64
  }

  /** i is the first position of c from a position on, or |s|, which stands for
      npos, when there is none. */
  predicate IsFirst(s: string, c: char, from: nat, i: nat) {
    && from <= i <= |s|
    && (forall k :: from <= k < i ==> s[k] != c)
    && (i < |s| ==> s[i] == c)
  }

  lemma {:induction false} FirstExists(s: string, c: char, from: nat)
    requires from <= |s|
    ensures exists i: nat :: IsFirst(s, c, from, i)
    decreases |s| - from
  {
    if from == |s| || s[from] == c {
      assert IsFirst(s, c, from, from);
    } else {
      FirstExists(s, c, from + 1);
      var i: nat :| IsFirst(s, c, from + 1, i);
      assert IsFirst(s, c, from, i);
    }
  }

  /** std::string::find for a character. */
  function FindFrom(s: string, c: char, from: nat): (i: nat)
    requires from <= |s|
    ensures IsFirst(s, c, from, i)
  {
    FirstExists(s, c, from);
    var i: nat :| IsFirst(s, c, from, i);
    i
  }

  function Find(s: string, c: char): nat {
    FindFrom(s, c, 0)
  }

  lemma Associate<T>(a: seq<T>, b: seq<T>, c: seq<T>)
    ensures a + (b + c) == (a + b) + c
  {
  }

  lemma Units<T>(a: seq<T>)
    ensures a + [] == a && [] + a == a
  {
  }

  predicate Free(s: string, c: char) {
    forall k :: 0 <= k < |s| ==> s[k] != c
  }

  /** A string without c, followed by c, is cut exactly there. */
  lemma CutAt(s: string, a: string, c: char, b: string)
    requires s == a + [c] + b && Free(a, c)
    ensures Find(s, c) == |a| < |s|
    ensures s[..|a|] == a && s[|a| + 1..] == b
  {
    assert s[|a|] == c;
    assert forall k :: 0 <= k < |a| ==> s[k] == a[k];
  }

  /** The bytes CR LF CR LF stand at position i. */
  predicate EndAt(s: string, i: nat) {
    && i + 4 <= |s|
    && s[i] == '\r' && s[i + 1] == '\n' && s[i + 2] == '\r' && s[i + 3] == '\n'
  }

  /** i is the first position of CR LF CR LF from a position on, or |s|. */
  predicate IsFirstEnd(s: string, from: nat, i: nat) {
    && from <= i <= |s|
    && (forall k :: from <= k < i ==> !EndAt(s, k))
    && (i < |s| ==> EndAt(s, i))
  }

  lemma {:induction false} FirstEndExists(s: string, from: nat)
    requires from <= |s|
    ensures exists i: nat :: IsFirstEnd(s, from, i)
    decreases |s| - from
  {
    if from == |s| || EndAt(s, from) {
      assert IsFirstEnd(s, from, from);
    } else {
      FirstEndExists(s, from + 1);
      var i: nat :| IsFirstEnd(s, from + 1, i);
      assert IsFirstEnd(s, from, i);
    }
  }

  /** std::search for CR LF CR LF. */
  function SearchEnd(s: string, from: nat): (i: nat)
    requires from <= |s|
    ensures IsFirstEnd(s, from, i)
  {
    FirstEndExists(s, from);
    var i: nat :| IsFirstEnd(s, from, i);
    i
  }

  function FirstEnd(s: string): (i: nat)
    ensures IsFirstEnd(s, 0, i)
    ensures i == |s| || i + 4 <= |s|
  {
    SearchEnd(s, 0)
  }

  /** A head end, once found, is not moved by later bytes. */
  lemma FirstEndStable(s: string, more: string)
    requires FirstEnd(s) < |s|
    ensures FirstEnd(s + more) == FirstEnd(s)
  {
    var h := FirstEnd(s);
    assert EndAt(s + more, h);
    forall k | 0 <= k < h ensures !EndAt(s + more, k) {
      assert !EndAt(s, k);
    }
    assert FirstEnd(s + more) <= h;
  }

  /** Searching only the last |chunk| + 3 bytes misses nothing. */
  lemma {:induction false} WindowExact(seen: string, chunk: string)
    requires FirstEnd(seen) == |seen|
    ensures var start := if |seen| < 3 then 0 else |seen| - 3;
            SearchEnd(seen + chunk, start) == FirstEnd(seen + chunk)
  {
    var all := seen + chunk;
    var start := if |seen| < 3 then 0 else |seen| - 3;
    forall k | 0 <= k < start ensures !EndAt(all, k) {
      assert !EndAt(seen, k);
    }
  }

  predicate IsDigit(c: char) {
    '0' <= c <= '9'
  }

  function Digit(d: nat): (c: char)
    requires d < 10
    ensures IsDigit(c) && c as int - '0' as int == d
  {
    '0' + d as char
  }

  /** Decimal notation, as std::to_string and operator<< print it. */
  function Decimal(n: nat): (s: string)
    ensures s != "" && forall k :: 0 <= k < |s| ==> IsDigit(s[k])
  {
    if n < 10 then [Digit(n)] else Decimal(n / 10) + [Digit(n % 10)]
  }

  /** The value of the leading digits, continuing from acc. */
  function DigitsValue(s: string, acc: nat): nat {
    if s == "" || !IsDigit(s[0]) then acc
    else DigitsValue(s[1..], 10 * acc + (s[0] as int - '0' as int))
  }

  predicate IsSpace(c: char) {
    c == ' ' || '\t' <= c <= '\r'
  }

  function SkipSpace(s: string): string {
    if s == "" || !IsSpace(s[0]) then s else SkipSpace(s[1..])
  }

  /** std::stoull: blanks, an optional sign, digits, anything after them.
      None is the invalid_argument or out_of_range exception. */
  function Stoull(s: string): (v: Option<nat>)
    ensures v.Some? ==> v.value < TWO_64
  {
    var t := SkipSpace(s);
    var signed := t != "" && (t[0] == '-' || t[0] == '+');
    var u := if signed then t[1..] else t;
    if u == "" || !IsDigit(u[0]) then None
    else
      var v := DigitsValue(u, 0);
      if v >= TWO_64 then None
      else if signed && t[0] == '-' then Some((TWO_64 - v) % TWO_64)
      else Some(v)
  }

  lemma {:induction false} DigitsValueAppend(a: string, b: string, acc: nat)
    requires forall k :: 0 <= k < |a| ==> IsDigit(a[k])
    ensures DigitsValue(a + b, acc) == DigitsValue(b, DigitsValue(a, acc))
  {
    if a == "" {
      assert a + b == b;
    } else {
      assert (a + b)[1..] == a[1..] + b;
      DigitsValueAppend(a[1..], b, 10 * acc + (a[0] as int - '0' as int));
    }
  }

  lemma {:induction false} DigitsValueDecimal(n: nat)
    ensures DigitsValue(Decimal(n), 0) == n
  {
    if n >= 10 {
      DigitsValueDecimal(n / 10);
      DigitsValueAppend(Decimal(n / 10), [Digit(n % 10)], 0);
      assert DigitsValue([Digit(n % 10)], n / 10) == 10 * (n / 10) + n % 10;
    }
  }

  /** stoull reads back every number it can hold. */
  lemma StoullDecimal(n: nat)
    requires n < TWO_64
    ensures Stoull(Decimal(n)) == Some(n)
  {
    DigitsValueDecimal(n);
    var s := Decimal(n);
    assert IsDigit(s[0]);
    assert SkipSpace(s) == s;
  }

  /** std::tolower in the C locale. */
  function Lower(c: char): char {
    if 'A' <= c <= 'Z' then c - 'A' + 'a' else c
  }

  /** Equality that ignores case. */
  predicate Iequals(a: string, b: string) {
    |a| == |b| && forall k :: 0 <= k < |a| ==> Lower(a[k]) == Lower(b[k])
  }
}
