/**
 * String handling of the enrichment pass: `title.split("#")`, the
 * identifier taken from its second piece, and a digits-only `parseInt`.
 */
module Text {
  import opened Wrappers

  /** The separator between a listing's collection name and its number. */
  const Hash: char := '#'

  /** `s.split(sep)`: the pieces between separators, always at least one. */
  function Split(s: string, sep: char): (parts: seq<string>)
    ensures |parts| >= 1
    ensures forall i :: 0 <= i < |parts| ==> sep !in parts[i]
    decreases |s|
  {
    if s == [] then [""]
    else
      var rest := Split(s[1..], sep);
      if s[0] == sep then [""] + rest
      else [[s[0]] + rest[0]] + rest[1..]
  }

  /** `parts.join(sep)`, the inverse of Split. */
  function Join(parts: seq<string>, sep: char): string
    requires |parts| >= 1
  {
    if |parts| == 1 then parts[0] else parts[0] + [sep] + Join(parts[1..], sep)
  }

  /** Splitting loses nothing: joining the pieces gives the string back. */
  lemma {:induction false} JoinSplit(s: string, sep: char)
    ensures Join(Split(s, sep), sep) == s
    decreases |s|
  {
    if s != [] {
      JoinSplit(s[1..], sep);
      var rest := Split(s[1..], sep);
      if s[0] != sep {
        if |rest| == 1 {
          assert Split(s, sep) == [[s[0]] + rest[0]];
        } else {
          assert Split(s, sep)[1..] == rest[1..];
          assert Join(rest, sep) == rest[0] + [sep] + Join(rest[1..], sep);
        }
      }
    }
  }

  /** A piece without separators, followed by a separator, splits off as the first piece. */
  lemma {:induction false} SplitFirstPiece(a: string, b: string, sep: char)
    requires sep !in a
    ensures Split(a + [sep] + b, sep) == [a] + Split(b, sep)
    decreases |a|
  {
    if a != [] {
      SplitFirstPiece(a[1..], b, sep);
      assert (a + [sep] + b)[0] == a[0] && (a + [sep] + b)[1..] == a[1..] + [sep] + b;
      assert [a[0]] + a[1..] == a;
    } else {
      assert (a + [sep] + b)[1..] == b;
    }
  }

  /** A string without separators is a single piece. */
  lemma {:induction false} SplitNoSeparator(a: string, sep: char)
    requires sep !in a
    ensures Split(a, sep) == [a]
    decreases |a|
  {
    if a != [] {
      SplitNoSeparator(a[1..], sep);
      assert [a[0]] + a[1..] == a;
    }
  }

  /**
   * `const [_, id] = title.split("#")`: the second piece, or None
   * (JavaScript's `undefined`) when the title has no `#`.
   */
  function SecondPiece(title: string): Option<string>
  {
    var parts := Split(title, Hash);
    if |parts| >= 2 then Some(parts[1]) else None
  }

  /** The identifier is missing exactly when the title has no `#`. */
  lemma SecondPieceMissing(title: string)
    ensures SecondPiece(title).None? <==> Hash !in title
  {
    if Hash in title {
      FirstSeparator(title);
    } else {
      SplitNoSeparator(title, Hash);
    }
  }

  /** A string with a separator splits into at least two pieces. */
  lemma {:induction false} FirstSeparator(s: string)
    requires Hash in s
    ensures |Split(s, Hash)| >= 2
    decreases |s|
  {
    if s[0] == Hash {
      assert |Split(s, Hash)| == 1 + |Split(s[1..], Hash)|;
    } else {
      assert Hash in s[1..];
      FirstSeparator(s[1..]);
    }
  }

  /**
   * For a title shaped `<name>#<id>` (optionally followed by more
   * `#`-pieces), the identifier is exactly `<id>`.
   */
  lemma {:induction false} IdentifierOfTitle(name: string, id: string, rest: string)
    requires Hash !in name && Hash !in id
    requires rest == [] || rest[0] == Hash
    ensures SecondPiece(name + [Hash] + id + rest) == Some(id)
  {
    var title := name + [Hash] + id + rest;
    assert title == name + [Hash] + (id + rest);
    SplitFirstPiece(name, id + rest, Hash);
    if rest == [] {
      assert id + rest == id;
      SplitNoSeparator(id, Hash);
    } else {
      assert id + rest == id + [Hash] + rest[1..];
      SplitFirstPiece(id, rest[1..], Hash);
    }
  }

  predicate IsDigit(c: char) { '0' <= c <= '9' }

  function DigitValue(c: char): nat
    requires IsDigit(c)
  {
    (c as int - '0' as int) as nat
  }

  function DigitChar(d: nat): (c: char)
    requires d < 10
    ensures IsDigit(c) && DigitValue(c) == d
  {
    ('0' as int + d) as char
  }

  /** The value of a string of decimal digits, most significant first. */
  function DigitsValue(s: string): nat
    requires forall i :: 0 <= i < |s| ==> IsDigit(s[i])
  {
    if s == [] then 0 else DigitsValue(s[..|s| - 1]) * 10 + DigitValue(s[|s| - 1])
  }

  /**
   * `parseInt(s)` on the strings this pass meets: a non-empty run of
   * decimal digits gives its value; anything else gives NaN (None).
   */
  function ParseInt(s: string): Option<int>
  {
    if s != [] && forall i :: 0 <= i < |s| ==> IsDigit(s[i]) then Some(DigitsValue(s)) else None
  }

  /** The decimal spelling of a natural number, as `${n}` writes it. */
  function Decimal(n: nat): (s: string)
    ensures s != [] && forall i :: 0 <= i < |s| ==> IsDigit(s[i])
  {
    if n < 10 then [DigitChar(n)] else Decimal(n / 10) + [DigitChar(n % 10)]
  }

  /** Parsing the decimal spelling of a number gives that number back. */
  lemma {:induction false} ParseDecimal(n: nat)
    ensures ParseInt(Decimal(n)) == Some(n)
  {
    if n >= 10 {
      ParseDecimal(n / 10);
      var s := Decimal(n);
      assert s[..|s| - 1] == Decimal(n / 10) && s[|s| - 1] == DigitChar(n % 10);
      assert DigitsValue(s) == DigitsValue(Decimal(n / 10)) * 10 + n % 10;
    }
  }

  /** The identifier of `<name>#<n>` parses back to the number `n`. */
  lemma NumberOfTitle(name: string, n: nat)
    requires Hash !in name
    ensures SecondPiece(name + [Hash] + Decimal(n)) == Some(Decimal(n))
    ensures ParseInt(SecondPiece(name + [Hash] + Decimal(n)).value) == Some(n)
  {
    assert !IsDigit(Hash);
    IdentifierOfTitle(name, Decimal(n), []);
    assert name + [Hash] + Decimal(n) + [] == name + [Hash] + Decimal(n);
    ParseDecimal(n);
  }
}
