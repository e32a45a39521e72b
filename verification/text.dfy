/** The JavaScript string and number primitives the hooks rely on, restricted
    to what the model needs: ASCII case folding (`toLowerCase`), substring
    search (`includes`), `trim`, and reading (`Number`) and writing (`String`)
    decimal integers. A JavaScript NaN is represented by `None`. */
module Text {
  import opened Options

  // ---------------------------------------------------------------------------
  // Case folding and substring search

  function LowerChar(c: char): char
  {
    if 'A' <= c <= 'Z' then (c as int - 'A' as int + 'a' as int) as char else c
  }

  /** `s.toLowerCase()` on the ASCII letters; every other character is kept. */
  function Lower(s: string): (r: string)
    ensures |r| == |s|
    ensures forall i :: 0 <= i < |s| ==> r[i] == LowerChar(s[i])
  {
    if s == [] then [] else [LowerChar(s[0])] + Lower(s[1..])
  }

  predicate StartsWith(s: string, prefix: string)
  {
    |prefix| <= |s| && s[..|prefix|] == prefix
  }

  /** `s.includes(part)`: `part` occurs somewhere in `s`. */
  predicate Includes(s: string, part: string)
  {
    StartsWith(s, part) || (s != [] && Includes(s[1..], part))
  }

  /** `part` occurs in `s` starting at index `i`. */
  predicate OccursAt(s: string, part: string, i: int)
  {
    0 <= i && i + |part| <= |s| && s[i..i + |part|] == part
  }

  /** `Includes` agrees with the positional definition of an occurrence. */
  lemma {:induction false} IncludesAtPosition(s: string, part: string)
    ensures Includes(s, part) <==> exists i :: OccursAt(s, part, i)
  {
    if s == [] {
      if StartsWith(s, part) {
        assert OccursAt(s, part, 0);
      } else {
        assert forall i :: !OccursAt(s, part, i);
      }
    } else {
      IncludesAtPosition(s[1..], part);
      if Includes(s, part) {
        if StartsWith(s, part) {
          assert OccursAt(s, part, 0);
        } else {
          var i :| OccursAt(s[1..], part, i);
          assert s[i + 1..i + 1 + |part|] == s[1..][i..i + |part|];
          assert OccursAt(s, part, i + 1);
        }
      } else {
        forall i | OccursAt(s, part, i)
          ensures false
        {
          if i == 0 {
            assert false;
          } else {
            assert s[1..][i - 1..i - 1 + |part|] == part;
            assert OccursAt(s[1..], part, i - 1);
          }
        }
      }
    }
  }

  // ---------------------------------------------------------------------------
  // Trimming

  /** The characters `String.prototype.trim` removes: the ECMAScript
      WhiteSpace and LineTerminator code points. */
  predicate IsWhiteSpace(c: char)
  {
    var n := c as int;
    n == 0x09 || n == 0x0A || n == 0x0B || n == 0x0C || n == 0x0D || n == 0x20 ||
    n == 0xA0 || n == 0x1680 || (0x2000 <= n <= 0x200A) || n == 0x2028 ||
    n == 0x2029 || n == 0x202F || n == 0x205F || n == 0x3000 || n == 0xFEFF
  }

  function TrimStart(s: string): string
  {
    if s != [] && IsWhiteSpace(s[0]) then TrimStart(s[1..]) else s
  }

  function TrimEnd(s: string): string
  {
    if s != [] && IsWhiteSpace(s[|s| - 1]) then TrimEnd(s[..|s| - 1]) else s
  }

  /** `s.trim()`. */
  function Trim(s: string): string
  {
    TrimEnd(TrimStart(s))
  }

  /** `!s.trim()`: nothing but white space is left after trimming. */
  predicate IsBlank(s: string)
  {
    Trim(s) == []
  }

  predicate AllWhiteSpace(s: string)
  {
    forall i :: 0 <= i < |s| ==> IsWhiteSpace(s[i])
  }

  predicate NoWhiteSpace(s: string)
  {
    forall i :: 0 <= i < |s| ==> !IsWhiteSpace(s[i])
  }

  lemma {:induction false} TrimStartAllWhiteSpace(s: string)
    ensures TrimStart(s) == [] <==> AllWhiteSpace(s)
  {
    if s != [] {
      TrimStartAllWhiteSpace(s[1..]);
      if IsWhiteSpace(s[0]) {
        if AllWhiteSpace(s[1..]) {
          assert AllWhiteSpace(s) by {
            forall i | 0 < i < |s| ensures IsWhiteSpace(s[i]) {
              assert s[i] == s[1..][i - 1];
            }
          }
        } else {
          var i :| 0 <= i < |s[1..]| && !IsWhiteSpace(s[1..][i]);
          assert !IsWhiteSpace(s[i + 1]);
        }
      } else {
        assert !IsWhiteSpace(s[0]);
      }
    }
  }

  lemma {:induction false} TrimStartFirst(s: string)
    ensures TrimStart(s) != [] ==> !IsWhiteSpace(TrimStart(s)[0])
  {
    if s != [] && IsWhiteSpace(s[0]) {
      TrimStartFirst(s[1..]);
    }
  }

  /** A string is blank exactly when all of its characters are white space. */
  lemma BlankIffAllWhiteSpace(s: string)
    ensures IsBlank(s) <==> AllWhiteSpace(s)
  {
    TrimStartAllWhiteSpace(s);
    var t := TrimStart(s);
    if t != [] {
      TrimStartFirst(s);
      assert !IsWhiteSpace(t[0]);
      assert TrimEnd(t) != [] by {
        TrimEndNonBlank(t);
      }
    }
  }

  lemma {:induction false} TrimEndNonBlank(t: string)
    requires t != [] && !AllWhiteSpace(t)
    ensures TrimEnd(t) != []
  {
    if IsWhiteSpace(t[|t| - 1]) {
      var u := t[..|t| - 1];
      var i :| 0 <= i < |t| && !IsWhiteSpace(t[i]);
      assert i < |t| - 1;
      assert !IsWhiteSpace(u[i]);
      TrimEndNonBlank(u);
    }
  }

  /** Trimming leaves a string without white space untouched. */
  lemma TrimNoWhiteSpace(s: string)
    requires NoWhiteSpace(s)
    ensures Trim(s) == s
  {
  }

  // ---------------------------------------------------------------------------
  // Decimal integers

  predicate IsDigit(c: char)
  {
    '0' <= c <= '9'
  }

  predicate AllDigits(s: string)
  {
    forall i :: 0 <= i < |s| ==> IsDigit(s[i])
  }

  function DigitChar(d: nat): (c: char)
    requires d < 10
    ensures IsDigit(c)
  {
    ('0' as int + d) as char
  }

  function DigitValue(c: char): (d: nat)
    requires IsDigit(c)
    ensures d < 10
  {
    c as int - '0' as int
  }

  /** The value of a run of decimal digits, most significant first. */
  function DigitsValue(s: string): nat
    requires AllDigits(s)
  {
    if s == [] then 0 else 10 * DigitsValue(s[..|s| - 1]) + DigitValue(s[|s| - 1])
  }

  /** `String(n)` for a natural number: its shortest decimal representation. */
  function NatToString(n: nat): (r: string)
    ensures r != [] && AllDigits(r)
  {
    if n < 10 then [DigitChar(n)] else NatToString(n / 10) + [DigitChar(n % 10)]
  }

  /** `String(i)` for an integer. */
  function IntToString(i: int): (r: string)
    ensures r != []
  {
    if i < 0 then "-" + NatToString(-i) else NatToString(i)
  }

  /** `Number(s)` on the strings this model reads. After trimming, the empty
      string reads as 0 and an optional sign followed by decimal digits reads
      as that integer; anything else reads as NaN (`None`). */
  function ToNumber(s: string): Option<int>
  {
    var t := Trim(s);
    if t == [] then Some(0)
    else if |t| > 1 && t[0] == '-' && AllDigits(t[1..]) then Some(-(DigitsValue(t[1..]) as int))
    else if |t| > 1 && t[0] == '+' && AllDigits(t[1..]) then Some(DigitsValue(t[1..]))
    else if AllDigits(t) then Some(DigitsValue(t))
    else None
  }

  lemma {:induction false} DigitsOfNat(n: nat)
    ensures DigitsValue(NatToString(n)) == n
  {
    if n >= 10 {
      var s := NatToString(n);
      assert s[..|s| - 1] == NatToString(n / 10);
      DigitsOfNat(n / 10);
    }
  }

  lemma IntToStringNoWhiteSpace(i: int)
    ensures NoWhiteSpace(IntToString(i))
  {
  }

  /** Reading back what `String` wrote gives the original integer. */
  lemma NumberOfString(i: int)
    ensures ToNumber(IntToString(i)) == Some(i)
  {
    var s := IntToString(i);
    IntToStringNoWhiteSpace(i);
    TrimNoWhiteSpace(s);
    if i < 0 {
      assert s[1..] == NatToString(-i);
      DigitsOfNat(-i);
    } else {
      DigitsOfNat(i);
    }
  }

  // ---------------------------------------------------------------------------
  // Arithmetic and comparison on JavaScript numbers (NaN is None)

  /** `a < b`; false when either side is NaN. */
  predicate NumLt(a: Option<int>, b: Option<int>)
  {
    a.Some? && b.Some? && a.value < b.value
  }

  /** `a <= b`; false when either side is NaN. */
  predicate NumLe(a: Option<int>, b: Option<int>)
  {
    a.Some? && b.Some? && a.value <= b.value
  }

  /** `a + b`; NaN when either side is NaN. */
  function NumAdd(a: Option<int>, b: Option<int>): Option<int>
  {
    if a.Some? && b.Some? then Some(a.value + b.value) else None
  }
}
