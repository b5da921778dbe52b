/** What the library calls of Text mean, in characters and numbers. */
module TextLaws {
  import opened Text

  // ----------------------------------------------------- equality up to case

  /** The same letter, once large and once small. */
  predicate OtherCase(a: char, b: char) {
    ('A' <= a <= 'Z' && b as int == a as int + 32) || ('A' <= b <= 'Z' && a as int == b as int + 32)
  }

  predicate SameButCase(a: string, b: string) {
    |a| == |b| && forall k :: 0 <= k < |a| ==> a[k] == b[k] || OtherCase(a[k], b[k])
  }

  /** iequals ignores the case of the ASCII letters and nothing else. */
  lemma IequalsExact(a: string, b: string)
    ensures Iequals(a, b) <==> SameButCase(a, b)
  {
    if Iequals(a, b) {
      forall k | 0 <= k < |a| ensures a[k] == b[k] || OtherCase(a[k], b[k]) {
        assert Lower(a[k]) == Lower(b[k]);
      }
    }
    if SameButCase(a, b) {
      forall k | 0 <= k < |a| ensures Lower(a[k]) == Lower(b[k]) {
        assert a[k] == b[k] || OtherCase(a[k], b[k]);
      }
    }
  }

  // ---------------------------------------------------------------- numbers

  predicate AllDigits(s: string) {
    forall k :: 0 <= k < |s| ==> '0' <= s[k] <= '9'
  }

  predicate AllBlank(s: string) {
    forall k :: 0 <= k < |s| ==> s[k] == ' ' || 9 <= s[k] as int <= 13
  }

  /** The number that digits stand for, the last digit counting one. */
  function Number(digits: string): nat
    requires AllDigits(digits)
    decreases |digits|
  {
    if digits == "" then 0
    else 10 * Number(digits[..|digits| - 1]) + (digits[|digits| - 1] as int - 48)
  }

  /** Blanks, a sign, digits, and anything that does not go on with a digit. */
  datatype Numeral = Numeral(blanks: string, sign: string, digits: string, tail: string)

  predicate Spells(x: Numeral, s: string) {
    && s == x.blanks + (x.sign + (x.digits + x.tail))
    && AllBlank(x.blanks) && (x.sign == "" || x.sign == "+" || x.sign == "-")
    && x.digits != "" && AllDigits(x.digits) && (x.tail != "" ==> !('0' <= x.tail[0] <= '9'))
  }

  lemma {:induction false} SkipBlanks(blanks: string, rest: string)
    requires AllBlank(blanks) && (rest != "" ==> !IsSpace(rest[0]))
    ensures SkipSpace(blanks + rest) == rest
    decreases |blanks|
  {
    if blanks == "" {
      Units(rest);
    } else {
      assert (blanks + rest)[0] == blanks[0] && (blanks + rest)[1..] == blanks[1..] + rest;
      SkipBlanks(blanks[1..], rest);
    }
  }

  lemma {:induction false} BlanksSkipped(s: string) returns (blanks: string)
    ensures AllBlank(blanks) && s == blanks + SkipSpace(s)
    ensures SkipSpace(s) != "" ==> !IsSpace(SkipSpace(s)[0])
    decreases |s|
  {
    if s == "" || !IsSpace(s[0]) {
      blanks := "";
      Units(s);
    } else {
      var more := BlanksSkipped(s[1..]);
      blanks := [s[0]] + more;
      Associate([s[0]], more, SkipSpace(s[1..]));
      assert s == [s[0]] + s[1..];
    }
  }

  lemma {:induction false} NumberIsValue(digits: string)
    requires AllDigits(digits)
    ensures DigitsValue(digits, 0) == Number(digits)
    decreases |digits|
  {
    if digits != "" {
      var init, last := digits[..|digits| - 1], digits[|digits| - 1];
      NumberIsValue(init);
      assert digits == init + [last];
      DigitsValueAppend(init, [last], 0);
      assert [last][1..] == "";
      assert DigitsValue([last], Number(init)) == DigitsValue("", 10 * Number(init) + (last as int - '0' as int));
    }
  }

  lemma ValueOf(digits: string, tail: string)
    requires AllDigits(digits) && (tail != "" ==> !IsDigit(tail[0]))
    ensures DigitsValue(digits + tail, 0) == Number(digits)
  {
    DigitsValueAppend(digits, tail, 0);
    NumberIsValue(digits);
  }

  lemma {:induction false} DigitsFirst(s: string) returns (digits: string, tail: string)
    ensures s == digits + tail && AllDigits(digits) && (tail != "" ==> !IsDigit(tail[0]))
    ensures s != "" && IsDigit(s[0]) ==> digits != ""
    decreases |s|
  {
    if s == "" || !IsDigit(s[0]) {
      digits, tail := "", s;
      Units(s);
    } else {
      var more: string;
      more, tail := DigitsFirst(s[1..]);
      digits := [s[0]] + more;
      Associate([s[0]], more, tail);
      assert s == [s[0]] + s[1..];
    }
  }

  /** stoull of a numeral: its value, negated modulo 2^64 after a minus, or out of
      range. */
  lemma StoullReads(x: Numeral, s: string)
    requires Spells(x, s)
    ensures var v := Number(x.digits);
            Stoull(s) ==
              if v >= 18446744073709551616 then None
              else if x.sign == "-" && v != 0 then Some(18446744073709551616 - v)
              else Some(v)
  {
    hide DigitsValue, Number, SkipSpace;
    var u := x.digits + x.tail;
    var t := x.sign + u;
    assert u[0] == x.digits[0];
    if x.sign == "" {
      Units(u);
    } else {
      assert t[0] == x.sign[0] && t[1..] == u;
    }
    SkipBlanks(x.blanks, t);
    ValueOf(x.digits, x.tail);
  }

  /** Everything that is no numeral is an invalid_argument. */
  lemma StoullRefuses(s: string) returns (x: Numeral)
    ensures Spells(x, s) || (Stoull(s) == None && forall y :: !Spells(y, s))
  {
    hide DigitsValue, SkipSpace;
    var blanks := BlanksSkipped(s);
    var t := SkipSpace(s);
    var signed := t != "" && (t[0] == '-' || t[0] == '+');
    var u := if signed then t[1..] else t;
    var digits, tail := DigitsFirst(u);
    x := Numeral(blanks, if signed then [t[0]] else "", digits, tail);
    if u != "" && IsDigit(u[0]) {
      assert t == x.sign + u;
    } else {
      forall y ensures !Spells(y, s) {
        if Spells(y, s) {
          NumeralStarts(y, s);
        }
      }
    }
  }

  lemma NumeralStarts(x: Numeral, s: string)
    requires Spells(x, s)
    ensures var t := SkipSpace(s);
            var u := if t != "" && (t[0] == '-' || t[0] == '+') then t[1..] else t;
            u != "" && IsDigit(u[0])
  {
    hide SkipSpace;
    var u := x.digits + x.tail;
    var t := x.sign + u;
    assert u[0] == x.digits[0];
    if x.sign == "" {
      Units(u);
    } else {
      assert t[0] == x.sign[0] && t[1..] == u;
    }
    SkipBlanks(x.blanks, t);
  }

  /** The size_t count that wraps: what is missing, or 2^64 less what is too much. */
  lemma SizeTExact(length: nat, read: nat)
    requires length < 18446744073709551616 && read < 18446744073709551616
    ensures SizeT(length - read) == if read <= length then length - read else 18446744073709551616 + length - read
  {
  }
}
