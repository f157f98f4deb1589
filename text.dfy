/** String helpers that stand for the Foundation and standard-library calls the
    core relies on: `split`, `components(separatedBy:)`, `starts(with:)`,
    `Int(_:)`, `String(_:radix:uppercase:)`, string interpolation of integers and
    the lexicographic `<` on strings. Strings are modelled as sequences of
    ASCII characters, so a character count and a UTF-16 offset agree. */
module Text {
  import opened Wrappers

  // ---------------------------------------------------------------------------
  // Prefixes, suffixes and the lexicographic order

  predicate StartsWith(s: string, prefix: string) {
    |prefix| <= |s| && s[..|prefix|] == prefix
  }

  predicate EndsWith(s: string, suffix: string) {
    |suffix| <= |s| && s[|s| - |suffix|..] == suffix
  }

  /** Lexicographic `<` on strings, character by character on the code point:
      a proper prefix is smaller, otherwise the first difference decides. */
  predicate LexLess(a: string, b: string)
    decreases |a|
  {
    |b| > 0 && (|a| == 0 || a[0] < b[0] || (a[0] == b[0] && LexLess(a[1..], b[1..])))
  }

  lemma {:induction false} LexLessIrreflexive(a: string)
    ensures !LexLess(a, a)
    decreases |a|
  {
    if |a| > 0 {
      LexLessIrreflexive(a[1..]);
    }
  }

  lemma {:induction false} LexLessAsymmetric(a: string, b: string)
    requires LexLess(a, b)
    ensures !LexLess(b, a)
    decreases |a|
  {
    if |a| > 0 && a[0] == b[0] && !(a[0] < b[0]) {
      LexLessAsymmetric(a[1..], b[1..]);
    }
  }

  lemma {:induction false} LexLessTransitive(a: string, b: string, c: string)
    requires LexLess(a, b) && LexLess(b, c)
    ensures LexLess(a, c)
    decreases |a|
  {
    if |a| > 0 && a[0] == b[0] && b[0] == c[0] {
      LexLessTransitive(a[1..], b[1..], c[1..]);
    }
  }

  lemma {:induction false} LexLessConnected(a: string, b: string)
    requires a != b
    ensures LexLess(a, b) || LexLess(b, a)
    decreases |a|
  {
    if |a| > 0 && |b| > 0 && a[0] == b[0] {
      assert a == [a[0]] + a[1..] && b == [b[0]] + b[1..];
      LexLessConnected(a[1..], b[1..]);
    }
  }

  // ---------------------------------------------------------------------------
  // Splitting

  /** `components(separatedBy:)`: every separator ends a piece, so empty pieces
      are kept and the result is never empty ("" gives [""]). */
  function Components(s: string, sep: char): (r: seq<string>)
    ensures |r| >= 1
    decreases |s|
  {
    if |s| == 0 then [""]
    else
      var rest := Components(s[1..], sep);
      if s[0] == sep then [""] + rest
      else [[s[0]] + rest[0]] + rest[1..]
  }

  /** Glue the pieces back together with the separator between them. */
  function Join(parts: seq<string>, sep: char): string
  {
    if |parts| == 0 then ""
    else if |parts| == 1 then parts[0]
    else parts[0] + [sep] + Join(parts[1..], sep)
  }

  /** Joining the components of a string gives the string back. */
  lemma {:induction false} JoinComponents(s: string, sep: char)
    ensures Join(Components(s, sep), sep) == s
    decreases |s|
  {
    if |s| > 0 {
      var rest := Components(s[1..], sep);
      JoinComponents(s[1..], sep);
      if s[0] == sep {
        assert s == [sep] + s[1..];
      } else {
        var parts := [[s[0]] + rest[0]] + rest[1..];
        if |rest| == 1 {
          assert s == [s[0]] + s[1..];
        } else {
          assert parts[1..] == rest[1..];
          assert Join(rest, sep) == rest[0] + [sep] + Join(rest[1..], sep);
          assert s == [s[0]] + s[1..];
        }
      }
    }
  }

  /** No piece produced by `Components` contains the separator. */
  lemma {:induction false} ComponentsFree(s: string, sep: char)
    ensures forall i :: 0 <= i < |Components(s, sep)| ==> sep !in Components(s, sep)[i]
    decreases |s|
  {
    if |s| > 0 {
      ComponentsFree(s[1..], sep);
    }
  }

  /** Splitting a separator-free string gives that string alone. */
  lemma {:induction false} ComponentsOfFree(s: string, sep: char)
    requires sep !in s
    ensures Components(s, sep) == [s]
    decreases |s|
  {
    if |s| > 0 {
      ComponentsOfFree(s[1..], sep);
      assert s == [s[0]] + s[1..];
    }
  }

  /** A separator-free head is split off as one piece. */
  lemma {:induction false} ComponentsCons(a: string, b: string, sep: char)
    requires sep !in a
    ensures Components(a + [sep] + b, sep) == [a] + Components(b, sep)
    decreases |a|
  {
    if |a| == 0 {
      assert a + [sep] + b == [sep] + b;
      assert (a + [sep] + b)[1..] == b;
    } else {
      ComponentsCons(a[1..], b, sep);
      assert (a + [sep] + b)[1..] == a[1..] + [sep] + b;
      assert a == [a[0]] + a[1..];
    }
  }

  /** Splitting `a + sep + b`, where neither part holds the separator, gives
      exactly the two parts: `Components` undoes a two-piece `Join`. */
  lemma ComponentsOfPair(a: string, b: string, sep: char)
    requires sep !in a && sep !in b
    ensures Components(a + [sep] + b, sep) == [a, b]
  {
    ComponentsCons(a, b, sep);
    ComponentsOfFree(b, sep);
  }

  /** Drop the empty pieces. */
  function NonEmpty(parts: seq<string>): (r: seq<string>)
    ensures |r| <= |parts|
    ensures forall i :: 0 <= i < |r| ==> r[i] != ""
  {
    if |parts| == 0 then []
    else if parts[0] == "" then NonEmpty(parts[1..])
    else [parts[0]] + NonEmpty(parts[1..])
  }

  /** Swift's `split(separator:)` with its default of omitting empty
      subsequences: the separator-delimited pieces that are not empty. */
  function Split(s: string, sep: char): seq<string>
  {
    NonEmpty(Components(s, sep))
  }

  /** Every token of `Split` is non-empty and free of the separator. */
  lemma SplitTokens(s: string, sep: char)
    ensures forall i :: 0 <= i < |Split(s, sep)| ==> Split(s, sep)[i] != "" && sep !in Split(s, sep)[i]
  {
    ComponentsFree(s, sep);
    NonEmptyFrom(Components(s, sep), sep);
  }

  lemma {:induction false} NonEmptyFrom(parts: seq<string>, sep: char)
    requires forall i :: 0 <= i < |parts| ==> sep !in parts[i]
    ensures forall i :: 0 <= i < |NonEmpty(parts)| ==> sep !in NonEmpty(parts)[i]
  {
    if |parts| > 0 {
      NonEmptyFrom(parts[1..], sep);
    }
  }

  /** Two non-empty separator-free pieces joined by the separator split back
      into the two. */
  lemma SplitPair(a: string, b: string, sep: char)
    requires sep !in a && sep !in b && a != "" && b != ""
    ensures Split(a + [sep] + b, sep) == [a, b]
  {
    ComponentsOfPair(a, b, sep);
    assert NonEmpty([a, b]) == [a] + NonEmpty([b]);
  }

  /** Three non-empty separator-free pieces joined by the separator split
      back into the three. */
  lemma SplitTriple(a: string, b: string, c: string, sep: char)
    requires sep !in a && sep !in b && sep !in c && a != "" && b != "" && c != ""
    ensures Split(a + [sep] + b + [sep] + c, sep) == [a, b, c]
  {
    assert a + [sep] + b + [sep] + c == a + [sep] + (b + [sep] + c);
    ComponentsCons(a, b + [sep] + c, sep);
    ComponentsOfPair(b, c, sep);
    assert NonEmpty([a, b, c]) == [a] + NonEmpty([b, c]);
    assert NonEmpty([b, c]) == [b] + NonEmpty([c]);
  }

  /** Decimal text holds no dot. */
  lemma DecimalNoDot(n: int)
    ensures '.' !in DecimalText(n) && DecimalText(n) != ""
  {
    DecimalChars(n);
  }

  /** Offset of the last occurrence of `c`, if there is one. */
  function LastIndexOf(s: string, c: char): (r: Option<nat>)
    ensures r.None? <==> c !in s
    ensures r.Some? ==> r.value < |s| && s[r.value] == c && c !in s[r.value + 1..]
  {
    if |s| == 0 then None
    else if s[|s| - 1] == c then Some(|s| - 1)
    else
      var r := LastIndexOf(s[..|s| - 1], c);
      assert s == s[..|s| - 1] + [s[|s| - 1]];
      if r.Some? then
        assert s[r.value + 1..] == s[..|s| - 1][r.value + 1..] + [s[|s| - 1]];
        r
      else r
  }

  // ---------------------------------------------------------------------------
  // Digits and integers

  /** The value of a digit character in bases up to 16 (upper-case letters);
      16 for any other character. */
  function DigitOf(c: char): nat
  {
    if '0' <= c <= '9' then c as nat - '0' as nat
    else if 'A' <= c <= 'F' then c as nat - 'A' as nat + 10
    else 16
  }

  function DigitChar(d: nat): (c: char)
    requires d < 16
    ensures DigitOf(c) == d
  {
    if d < 10 then ('0' as nat + d) as char else ('A' as nat + d - 10) as char
  }

  predicate IsRadixDigits(s: string, base: nat)
  {
    forall i :: 0 <= i < |s| ==> DigitOf(s[i]) < base
  }

  /** The value of a string of digits, most significant first. */
  function RadixValue(s: string, base: nat): nat
    requires IsRadixDigits(s, base)
  {
    if |s| == 0 then 0
    else RadixValue(s[..|s| - 1], base) * base + DigitOf(s[|s| - 1])
  }

  /** The shortest digit string of `n` in `base`, as `String(n, radix:)` prints
      a non-negative number. */
  function RadixText(n: nat, base: nat): string
    requires 2 <= base <= 16
    decreases n
  {
    if n < base then [DigitChar(n)] else RadixText(n / base, base) + [DigitChar(n % base)]
  }

  /** Printing a number in a base and reading the digits back gives the number:
      the digit strings are well formed, non-empty and exact. */
  lemma {:induction false} RadixRoundTrip(n: nat, base: nat)
    requires 2 <= base <= 16
    ensures |RadixText(n, base)| > 0 && IsRadixDigits(RadixText(n, base), base)
    ensures RadixValue(RadixText(n, base), base) == n
    decreases n
  {
    var s := RadixText(n, base);
    if n < base {
      assert s == [DigitChar(n)];
      assert s[..|s| - 1] == [];
    } else {
      var q, d := n / base, n % base;
      DivMod(n, base);
      var t := RadixText(q, base);
      RadixRoundTrip(q, base);
      assert s == t + [DigitChar(d)];
      assert s[..|s| - 1] == t;
      assert IsRadixDigits(s, base) by {
        forall i | 0 <= i < |s| ensures DigitOf(s[i]) < base {
          if i < |t| { assert s[i] == t[i]; }
        }
      }
      assert RadixValue(s, base) == RadixValue(t, base) * base + d;
    }
  }

  lemma DivMod(n: nat, base: nat)
    requires 2 <= base
    ensures n / base < n || n < base
    ensures (n / base) * base + n % base == n && n % base < base
  {
  }

  /** Swift's `Int(_:)` accepts an optional sign followed by decimal digits.
      (Its 64-bit range is not modelled.) */
  predicate IsInteger(s: string)
  {
    if |s| > 0 && (s[0] == '+' || s[0] == '-') then |s| > 1 && IsRadixDigits(s[1..], 10)
    else |s| > 0 && IsRadixDigits(s, 10)
  }

  function IntValue(s: string): int
    requires IsInteger(s)
  {
    if s[0] == '-' then -(RadixValue(s[1..], 10) as int)
    else if s[0] == '+' then RadixValue(s[1..], 10)
    else RadixValue(s, 10)
  }

  /** `String(n, radix: base, uppercase: true)`: a minus sign for negative
      numbers, then the digits of the magnitude. */
  function SignedText(n: int, base: nat): string
    requires 2 <= base <= 16
  {
    if n < 0 then "-" + RadixText(-n, base) else RadixText(n, base)
  }

  /** Decimal rendering of an integer, as string interpolation prints it. */
  function DecimalText(n: int): string
  {
    SignedText(n, 10)
  }

  /** Upper-case hexadecimal rendering of an integer. */
  function HexText(n: int): string
  {
    SignedText(n, 16)
  }

  /** Interpolating an integer and parsing it back with `Int(_:)` is lossless. */
  lemma DecimalRoundTrip(n: int)
    ensures IsInteger(DecimalText(n)) && IntValue(DecimalText(n)) == n
  {
    RadixRoundTrip(if n < 0 then -n else n, 10);
    var s := DecimalText(n);
    if n < 0 {
      assert s[1..] == RadixText(-n, 10);
    } else {
      assert DigitOf(s[0]) < 10;
    }
  }

  /** Decimal text is never empty and holds only digits and a minus sign. */
  lemma DecimalChars(n: int)
    ensures |DecimalText(n)| > 0
    ensures forall i :: 0 <= i < |DecimalText(n)| ==> '0' <= DecimalText(n)[i] <= '9' || DecimalText(n)[i] == '-'
  {
    RadixRoundTrip(if n < 0 then -n else n, 10);
  }

  /** Hexadecimal text of a non-negative number consists only of the digits
      0-9 and A-F and reads back as the number. */
  lemma HexDigits(n: nat)
    ensures |HexText(n)| > 0 && IsRadixDigits(HexText(n), 16)
    ensures forall i :: 0 <= i < |HexText(n)| ==> '0' <= HexText(n)[i] <= '9' || 'A' <= HexText(n)[i] <= 'F'
    ensures RadixValue(HexText(n), 16) == n
  {
    RadixRoundTrip(n, 16);
  }

  // ---------------------------------------------------------------------------
  // Filtering

  /** `filter` on a list of names: those that pass `keep`, in their order. */
  function Filter(s: seq<string>, keep: string -> bool): (r: seq<string>)
    ensures |r| <= |s|
    ensures forall x :: x in r <==> x in s && keep(x)
  {
    if |s| == 0 then []
    else Filter(s[..|s| - 1], keep) + (if keep(s[|s| - 1]) then [s[|s| - 1]] else [])
  }

  // ---------------------------------------------------------------------------
  // Prefixes

  /** Growing a prefix by one element keeps the shorter prefix. */
  lemma PrefixStep<T>(s: seq<T>, i: nat)
    requires i < |s|
    ensures s[..i + 1][..i] == s[..i] && s[..i + 1][i] == s[i]
    ensures s[..i + 1] == s[..i] + [s[i]]
  {
  }

  /** The prefix as long as the sequence is the sequence. */
  lemma PrefixWhole<T>(s: seq<T>)
    ensures s[..|s|] == s
  {
  }

  // ---------------------------------------------------------------------------
  // Enumerations

  /** `order` lists every element of `elements` exactly once: the last of
      `order` is one of them, and the rest list the others. */
  predicate IsEnumeration<T>(order: seq<T>, elements: set<T>)
  {
    if |order| == 0 then elements == {}
    else order[|order| - 1] in elements
         && IsEnumeration(order[..|order| - 1], elements - {order[|order| - 1]})
  }

  /** An enumeration holds exactly the elements, as many as there are. */
  lemma {:induction false} EnumerationMembers<T>(order: seq<T>, elements: set<T>)
    requires IsEnumeration(order, elements)
    ensures forall x :: x in order <==> x in elements
    ensures |order| == |elements|
  {
    if |order| > 0 {
      var n := |order| - 1;
      EnumerationMembers(order[..n], elements - {order[n]});
      assert order == order[..n] + [order[n]];
    }
  }

  /** An enumeration lists no element twice. */
  lemma {:induction false} EnumerationDistinct<T>(order: seq<T>, elements: set<T>)
    requires IsEnumeration(order, elements)
    ensures forall i, j :: 0 <= i < j < |order| ==> order[i] != order[j]
  {
    if |order| > 0 {
      var n := |order| - 1;
      EnumerationDistinct(order[..n], elements - {order[n]});
      EnumerationMembers(order[..n], elements - {order[n]});
      forall i, j | 0 <= i < j < |order|
        ensures order[i] != order[j]
      {
        if j < n {
          assert order[..n][i] == order[i] && order[..n][j] == order[j];
        } else {
          assert order[..n][i] == order[i];
        }
      }
    }
  }

  /** Visiting one more element of the rest extends an enumeration of the
      visited ones. */
  lemma EnumerationStep<T>(order: seq<T>, visited: set<T>, x: T)
    requires IsEnumeration(order, visited) && x !in visited
    ensures IsEnumeration(order + [x], visited + {x})
  {
    assert (order + [x])[..|order|] == order;
    assert (visited + {x}) - {x} == visited;
  }

  /** The order in which a dictionary's iteration visits its keys; any order
      at all may come out. */
  method Enumerate<T>(elements: set<T>) returns (order: seq<T>)
    ensures IsEnumeration(order, elements)
    ensures |order| == |elements|
  {
    var rest := elements;
    order := [];
    while rest != {}
      invariant rest <= elements
      invariant IsEnumeration(order, elements - rest)
      decreases rest
    {
      var x :| x in rest;
      EnumerationStep(order, elements - rest, x);
      assert (elements - rest) + {x} == elements - (rest - {x});
      order := order + [x];
      rest := rest - {x};
    }
    assert elements - rest == elements;
    EnumerationMembers(order, elements);
  }
}
