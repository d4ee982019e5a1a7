/** Text helpers standing in for the parts of Rust's standard library the component
    relies on: `str::to_lowercase` (restricted to ASCII), `{}` on an integer and
    `{:?}` on a string, plus a substring predicate used to state properties. */
module Text {

  datatype Option<T> = None | Some(value: T)

  // ---------------------------------------------------------------------------
  // Substrings

  /** `needle` occurs in `hay` starting at index `i`. */
  predicate InfixAt(needle: string, hay: string, i: nat)
  {
    i + |needle| <= |hay| && hay[i..i + |needle|] == needle
  }

  /** `needle` occurs somewhere in `hay`. */
  predicate IsInfix(needle: string, hay: string)
  {
    exists i: nat | i <= |hay| :: InfixAt(needle, hay, i)
  }

  /** The middle part of a three-part concatenation occurs in it. */
  lemma InfixOfConcat(a: string, b: string, c: string)
    ensures IsInfix(b, a + b + c)
  {
    var s := a + b + c;
    assert s[|a|..|a| + |b|] == b;
    assert InfixAt(b, s, |a|);
  }

  /** Equal strings that share a prefix agree after it. */
  lemma PrefixCancel(a: string, x: string, y: string)
    requires a + x == a + y
    ensures x == y
  {
    assert x == (a + x)[|a|..];
    assert y == (a + y)[|a|..];
  }

  /** Equal strings that share a suffix agree before it. */
  lemma SuffixCancel(x: string, y: string, a: string)
    requires x + a == y + a
    ensures x == y
  {
    assert x == (x + a)[..|x|];
    assert y == (y + a)[..|y|];
  }

  /** A separator that occurs in neither head splits a string in one way only. */
  lemma SplitAtSeparator(a: string, x: string, b: string, y: string, sep: char)
    requires sep !in a && sep !in b
    requires a + [sep] + x == b + [sep] + y
    ensures a == b && x == y
  {
    var s := a + [sep] + x;
    var m := if |a| <= |b| then |a| else |b|;
    assert s[m] == sep;
    assert m == |a| == |b|;
    assert a == s[..|a|] == b;
    PrefixCancel(a + [sep], x, y);
  }

  /** A value ended by a separator that does not occur in it, after a fixed
      key, is read back uniquely, and so is what follows. */
  lemma KeyedValueInjective(key: string, a1: string, s1: string, a2: string, s2: string, sep: char)
    requires sep !in a1 && sep !in a2
    requires key + a1 + [sep] + s1 == key + a2 + [sep] + s2
    ensures a1 == a2 && s1 == s2
  {
    assert key + a1 + [sep] + s1 == key + (a1 + [sep] + s1);
    assert key + a2 + [sep] + s2 == key + (a2 + [sep] + s2);
    PrefixCancel(key, a1 + [sep] + s1, a2 + [sep] + s2);
    SplitAtSeparator(a1, s1, a2, s2, sep);
  }

  /** The two parts of two texts joined by a space can be read back from it. */
  lemma SpaceJoinParts(a: string, b: string)
    ensures |a + " " + b| == |a| + 1 + |b|
    ensures (a + " " + b)[..|a|] == a && (a + " " + b)[|a| + 1..] == b
  {
  }

  /** One CSS declaration, `property: value;`. */
  function Declaration(property: string, value: string): string
  {
    property + ": " + value + ";"
  }

  /** A declaration whose value has no `;`, followed by the rest of a style,
      is read back uniquely. */
  lemma DeclarationInjective(property: string, v1: string, r1: string, v2: string, r2: string)
    requires ';' !in v1 && ';' !in v2
    requires Declaration(property, v1) + r1 == Declaration(property, v2) + r2
    ensures v1 == v2 && r1 == r2
  {
    var key := property + ": ";
    assert Declaration(property, v1) + r1 == key + (v1 + [';'] + r1);
    assert Declaration(property, v2) + r2 == key + (v2 + [';'] + r2);
    PrefixCancel(key, v1 + [';'] + r1, v2 + [';'] + r2);
    SplitAtSeparator(v1, r1, v2, r2, ';');
  }

  // ---------------------------------------------------------------------------
  // ASCII case

  /** The ASCII lower-case form of one character; every other character is kept. */
  function LowerChar(c: char): (r: char)
    ensures 'A' <= c <= 'Z' ==> 'a' <= r <= 'z'
    ensures !('A' <= c <= 'Z') ==> r == c
    ensures !('A' <= r <= 'Z')
  {
    if 'A' <= c <= 'Z' then (c as int + 32) as char else c
  }

  /** The ASCII upper-case form of one character; every other character is kept. */
  function UpperChar(c: char): (r: char)
    ensures 'a' <= c <= 'z' ==> LowerChar(r) == c
    ensures !('a' <= c <= 'z') ==> r == c
  {
    if 'a' <= c <= 'z' then (c as int - 32) as char else c
  }

  /** `s.to_lowercase()`, restricted to ASCII letters. */
  function Lowercase(s: string): (r: string)
    ensures |r| == |s|
    ensures forall i :: 0 <= i < |s| ==> r[i] == LowerChar(s[i])
  {
    if s == [] then [] else [LowerChar(s[0])] + Lowercase(s[1..])
  }

  /** Upper-cases every ASCII letter; used to state case-insensitivity. */
  function Uppercase(s: string): (r: string)
    ensures |r| == |s|
    ensures forall i :: 0 <= i < |s| ==> r[i] == UpperChar(s[i])
  {
    if s == [] then [] else [UpperChar(s[0])] + Uppercase(s[1..])
  }

  /** No upper-case ASCII letter occurs in `s`. */
  predicate IsLower(s: string)
  {
    forall i :: 0 <= i < |s| ==> !('A' <= s[i] <= 'Z')
  }

  /** Lower-casing is idempotent, and keeps a lower-case string as it is. */
  lemma LowercaseIdempotent(s: string)
    ensures IsLower(Lowercase(s))
    ensures Lowercase(Lowercase(s)) == Lowercase(s)
    ensures IsLower(s) ==> Lowercase(s) == s
  {
  }

  /** Upper-casing loses nothing that lower-casing can see. */
  lemma LowercaseOfUppercase(s: string)
    ensures Lowercase(Uppercase(s)) == Lowercase(s)
  {
  }

  /** The first character upper-cased, the rest kept. */
  function Capitalize(s: string): (r: string)
    ensures |r| == |s|
  {
    if s == [] then [] else [UpperChar(s[0])] + s[1..]
  }

  /** Capitalising changes nothing that lower-casing can see. */
  lemma LowercaseOfCapitalize(s: string)
    ensures Lowercase(Capitalize(s)) == Lowercase(s)
  {
  }

  /** Equality up to ASCII case. */
  predicate EqualsIgnoringCase(a: string, b: string)
  {
    Lowercase(a) == Lowercase(b)
  }

  /** Lower-casing works piece by piece. */
  lemma LowercaseAppend(a: string, b: string)
    ensures Lowercase(a + b) == Lowercase(a) + Lowercase(b)
  {
    var whole, parts := Lowercase(a + b), Lowercase(a) + Lowercase(b);
    assert |whole| == |parts|;
    forall i | 0 <= i < |whole|
      ensures whole[i] == parts[i]
    {
      if i < |a| {
        assert (a + b)[i] == a[i];
      } else {
        assert (a + b)[i] == b[i - |a|];
      }
    }
  }

  /** Replacing a middle part by one equal to it up to case keeps the whole equal
      up to case. */
  lemma EqualsIgnoringCaseInContext(a: string, x: string, y: string, c: string)
    requires EqualsIgnoringCase(x, y)
    ensures EqualsIgnoringCase(a + x + c, a + y + c)
  {
    LowercaseAppend(a, x);
    LowercaseAppend(a + x, c);
    LowercaseAppend(a, y);
    LowercaseAppend(a + y, c);
  }

  /** Replacing two parts by ones equal to them up to case keeps the whole equal
      up to case. */
  lemma EqualsIgnoringCaseInContext2(h: string, x1: string, x2: string, m: string, y1: string, y2: string, t: string)
    requires EqualsIgnoringCase(x1, x2) && EqualsIgnoringCase(y1, y2)
    ensures EqualsIgnoringCase(h + x1 + m + y1 + t, h + x2 + m + y2 + t)
  {
    EqualsIgnoringCaseInContext(h, x1, x2, m + y1 + t);
    assert h + x1 + m + y1 + t == h + x1 + (m + y1 + t);
    assert h + x2 + m + y1 + t == h + x2 + (m + y1 + t);
    EqualsIgnoringCaseInContext(h + x2 + m, y1, y2, t);
  }

  // ---------------------------------------------------------------------------
  // Decimal numbers, as `{}` formats an unsigned integer

  function DigitChar(d: nat): (c: char)
    requires d < 10
    ensures '0' <= c <= '9'
  {
    "0123456789"[d]
  }

  function DigitValue(c: char): nat
  {
    if '0' <= c <= '9' then c as int - '0' as int else 0
  }

  /** The decimal representation of `n`, without leading zeros. */
  function DecimalString(n: nat): (r: string)
    ensures |r| >= 1
    ensures forall i :: 0 <= i < |r| ==> '0' <= r[i] <= '9'
    ensures r[0] == '0' ==> r == "0"
  {
    if n < 10 then [DigitChar(n)] else DecimalString(n / 10) + [DigitChar(n % 10)]
  }

  /** The number a string of decimal digits denotes. */
  function DecimalValue(s: string): nat
  {
    if s == [] then 0 else 10 * DecimalValue(s[..|s| - 1]) + DigitValue(s[|s| - 1])
  }

  /** Reading the digits back gives the number that was formatted. */
  lemma {:induction false} DecimalRoundTrip(n: nat)
    ensures DecimalValue(DecimalString(n)) == n
  {
    var r := DecimalString(n);
    if n < 10 {
      assert r[..|r| - 1] == [];
    } else {
      assert r[..|r| - 1] == DecimalString(n / 10);
      DecimalRoundTrip(n / 10);
    }
  }

  /** Distinct numbers are formatted differently. */
  lemma DecimalInjective(m: nat, n: nat)
    requires DecimalString(m) == DecimalString(n)
    ensures m == n
  {
    DecimalRoundTrip(m);
    DecimalRoundTrip(n);
  }

  // ---------------------------------------------------------------------------
  // `{:?}` on a string: quoted, with the escapes Rust applies to ASCII text

  function EscapeChar(c: char): (r: string)
    ensures |r| >= 1
  {
    if c == '"' then "\\\""
    else if c == '\\' then "\\\\"
    else if c == '\n' then "\\n"
    else if c == '\r' then "\\r"
    else if c == '\t' then "\\t"
    else if c == '\0' then "\\0"
    else [c]
  }

  function Escape(s: string): string
  {
    if s == [] then [] else EscapeChar(s[0]) + Escape(s[1..])
  }

  /** The string Rust's `{:?}` prints for `s`. */
  function DebugQuoted(s: string): (r: string)
    ensures |r| >= 2 && r[0] == '"' && r[|r| - 1] == '"'
  {
    "\"" + Escape(s) + "\""
  }

  /** The character a two-character escape `\c` stands for. */
  function UnescapeChar(c: char): Option<char>
  {
    if c == '"' then Some('"')
    else if c == '\\' then Some('\\')
    else if c == 'n' then Some('\n')
    else if c == 'r' then Some('\r')
    else if c == 't' then Some('\t')
    else if c == '0' then Some('\0')
    else None
  }

  /** Reads an escaped body back; `None` for text `Escape` never produces. */
  function Unescape(t: string): Option<string>
  {
    if t == [] then Some([])
    else if t[0] == '\\' then
      if |t| < 2 then None
      else match UnescapeChar(t[1])
        case None => None
        case Some(c) =>
          match Unescape(t[2..])
          case None => None
          case Some(rest) => Some([c] + rest)
    else if t[0] == '"' then None
    else match Unescape(t[1..])
      case None => None
      case Some(rest) => Some([t[0]] + rest)
  }

  /** Reading back one escaped character in front of the rest of a body. */
  lemma UnescapeEscapeChar(c: char, rest: string)
    ensures Unescape(EscapeChar(c) + rest)
            == match Unescape(rest) case None => None case Some(r) => Some([c] + r)
  {
    var e := EscapeChar(c);
    var t := e + rest;
    if |e| == 2 {
      assert t[0] == '\\' && UnescapeChar(t[1]) == Some(c);
      assert t[2..] == rest;
    } else {
      assert e == [c] && t[0] == c && c != '"' && c != '\\';
      assert t[1..] == rest;
    }
  }

  /** The body inside a `{:?}`-quoted string can always be recovered. */
  lemma {:induction false} UnescapeEscape(s: string)
    ensures Unescape(Escape(s)) == Some(s)
  {
    if s != [] {
      UnescapeEscape(s[1..]);
      assert Escape(s) == EscapeChar(s[0]) + Escape(s[1..]);
      UnescapeEscapeChar(s[0], Escape(s[1..]));
      assert s == [s[0]] + s[1..];
    }
  }

  /** Distinct strings are printed differently by `{:?}`. */
  lemma DebugQuotedInjective(s: string, t: string)
    requires DebugQuoted(s) == DebugQuoted(t)
    ensures s == t
  {
    var q := DebugQuoted(s);
    assert Escape(s) == q[1..|q| - 1] == Escape(t);
    UnescapeEscape(s);
    UnescapeEscape(t);
  }

  /** An escaped body contains no bare quote, so the quoted form cannot end early. */
  lemma {:induction false} EscapeHasNoBareQuote(s: string, i: nat)
    requires i < |Escape(s)| && Escape(s)[i] == '"'
    ensures i > 0 && Escape(s)[i - 1] == '\\'
  {
    if s != [] {
      var e := EscapeChar(s[0]);
      assert Escape(s) == e + Escape(s[1..]);
      if i >= |e| {
        EscapeHasNoBareQuote(s[1..], i - |e|);
        if i - |e| == 0 {
          assert false;
        }
      }
    }
  }
}
