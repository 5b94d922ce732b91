/**
 * The few java.lang.String operations the suite relies on, written out for
 * the characters they are defined on: trim, Latin-1 case mapping, prefix and
 * substring tests, comma splitting (with and without a limit), joining, the
 * decimal rendering of an int and the UTF-16 code units a String holds.
 */
module JavaText {
  import opened Outcomes

  /** String.trim() strips every character whose code is at most U+0020. */
  predicate IsSpace(c: char) { c <= ' ' }

  function TrimStart(s: string): (r: string)
    ensures |r| <= |s|
    ensures r == [] || !IsSpace(r[0])
  {
    if s != [] && IsSpace(s[0]) then TrimStart(s[1..]) else s
  }

  function TrimEnd(s: string): (r: string)
    ensures |r| <= |s|
    ensures r == [] || !IsSpace(r[|r| - 1])
  {
    if s != [] && IsSpace(s[|s| - 1]) then TrimEnd(s[..|s| - 1]) else s
  }

  /** String.trim(). */
  function Trim(s: string): (r: string)
    ensures r == [] || (!IsSpace(r[0]) && !IsSpace(r[|r| - 1]))
  {
    var t := TrimStart(s);
    TrimEndKeepsStart(t);
    TrimEnd(t)
  }

  lemma TrimEndKeepsStart(t: string)
    requires t == [] || !IsSpace(t[0])
    ensures TrimEnd(t) == [] || TrimEnd(t)[0] == t[0]
  {
  }

  /** `s.trim().isEmpty()`. */
  predicate IsBlank(s: string) { Trim(s) == [] }

  /**
   * The capitals of Basic Latin and Latin-1 Supplement: 'A'..'Z' and
   * U+00C0..U+00DE except the multiplication sign U+00D7.
   */
  predicate Mayuscula(c: char) {
    ('A' <= c <= 'Z') || ('\U{C0}' <= c <= '\U{DE}' && c != '\U{D7}')
  }

  /** The Kelvin sign U+212A and the Angstrom sign U+212B, capitals whose small letters are 'k' and 'å'. */
  const Kelvin: char := '\U{212A}'
  const Angstrom: char := '\U{212B}'

  /**
   * Character.toLowerCase up to U+00FF, and the Kelvin and Angstrom signs:
   * each Latin-1 capital becomes the small letter 32 code points above it;
   * every other character is left alone.
   */
  function LowerChar(c: char): (r: char)
    ensures IsSpace(r) <==> IsSpace(c)
    ensures Mayuscula(c) ==> r as int == c as int + 32
    ensures c == Kelvin ==> r == 'k'
    ensures c == Angstrom ==> r == '\U{E5}'
    ensures !Mayuscula(c) && c != Kelvin && c != Angstrom ==> r == c
    ensures !Mayuscula(r)
  {
    if Mayuscula(c) then (c as int + 32) as char
    else if c == Kelvin then 'k'
    else if c == Angstrom then '\U{E5}'
    else c
  }

  /** The small letters of Basic Latin and Latin-1 Supplement that have a one-character capital 32 code points below. */
  predicate Minuscula(c: char) {
    ('a' <= c <= 'z') || ('\U{E0}' <= c <= '\U{FE}' && c != '\U{F7}')
  }

  /**
   * Character.toUpperCase up to U+00FF, and for the two small letters above
   * it whose capital is ASCII: dotless i (U+0131) and long s (U+017F).
   * 'µ' and 'ÿ' go to their Greek and Latin Extended capitals; 'ß' has no
   * one-character capital and stays.
   */
  function UpperChar(c: char): (r: char)
    ensures Minuscula(c) ==> Mayuscula(r) && LowerChar(r) == c
    ensures Mayuscula(c) ==> r == c
    ensures c == '\U{131}' ==> r == 'I'
    ensures c == '\U{17F}' ==> r == 'S'
  {
    if Minuscula(c) then (c as int - 32) as char
    else if c == '\U{B5}' then '\U{39C}'
    else if c == '\U{FF}' then '\U{178}'
    else if c == '\U{131}' then 'I'
    else if c == '\U{17F}' then 'S'
    else c
  }

  /** String.toLowerCase(), character by character. */
  function ToLower(s: string): (r: string)
    ensures |r| == |s|
    ensures forall i :: 0 <= i < |s| ==> r[i] == LowerChar(s[i])
  {
    seq(|s|, i requires 0 <= i < |s| => LowerChar(s[i]))
  }

  /**
   * The test String.equalsIgnoreCase applies at each position: the same
   * character, the same capital, or capitals with the same small letter.
   */
  predicate IgualesSinCaso(a: char, b: char) {
    a == b || UpperChar(a) == UpperChar(b) || LowerChar(UpperChar(a)) == LowerChar(UpperChar(b))
  }

  /** String.equalsIgnoreCase: the same length, and the characters match position by position. */
  predicate EqualsIgnoreCase(a: string, b: string) {
    |a| == |b| && forall i :: 0 <= i < |a| ==> IgualesSinCaso(a[i], b[i])
  }

  /** Characters with the same small letter match ignoring case. */
  lemma LowerSinCaso(a: char, b: char)
    requires LowerChar(a) == LowerChar(b)
    ensures IgualesSinCaso(a, b)
  {
  }

  /** Strings that lower-case alike are equal ignoring case. */
  lemma MinusculasSinCaso(a: string, b: string)
    requires ToLower(a) == ToLower(b)
    ensures EqualsIgnoreCase(a, b)
  {
    forall i | 0 <= i < |a| ensures IgualesSinCaso(a[i], b[i]) {
      LowerSinCaso(a[i], b[i]);
    }
  }

  /**
   * The converse fails: dotless i and long s match 'i' and 's' through their
   * capitals, yet lower-case to themselves.
   */
  lemma SinCasoNoEsMinusculas()
    ensures EqualsIgnoreCase("\U{17F}tock", "stock") && ToLower("\U{17F}tock") != ToLower("stock")
    ensures EqualsIgnoreCase("\U{131}", "I") && ToLower("\U{131}") != ToLower("I")
    ensures EqualsIgnoreCase([Kelvin], "k")
  {
    assert UpperChar('\U{17F}') == UpperChar('s');
    var a, b := "\U{17F}tock", "stock";
    forall i | 0 <= i < |a| ensures IgualesSinCaso(a[i], b[i]) {
      if i > 0 { assert a[i] == b[i]; }
    }
    assert ToLower(a)[0] != ToLower(b)[0];
    assert UpperChar('\U{131}') == UpperChar('I');
    assert ToLower("\U{131}")[0] != ToLower("I")[0];
    assert LowerChar(UpperChar(Kelvin)) == LowerChar(UpperChar('k'));
  }

  /** String.startsWith. */
  predicate StartsWith(s: string, prefix: string) {
    |prefix| <= |s| && s[..|prefix|] == prefix
  }

  /** String.contains: `sub` occurs somewhere in `s` (the empty string occurs everywhere). */
  predicate Contains(s: string, sub: string)
    decreases |s|
  {
    StartsWith(s, sub) || (s != [] && Contains(s[1..], sub))
  }

  /** Every `sep`-separated field of `s`, empty ones included: one more field than separators. */
  function Fields(s: string, sep: char): (r: seq<string>)
    ensures |r| >= 1
  {
    if s == [] then [""]
    else
      var rest := Fields(s[1..], sep);
      if s[0] == sep then [""] + rest else [[s[0]] + rest[0]] + rest[1..]
  }

  /** The parts separated by `sep` (Collectors.joining / String.join without affixes). */
  function Join(parts: seq<string>, sep: string): string
  {
    if |parts| == 0 then ""
    else if |parts| == 1 then parts[0]
    else parts[0] + sep + Join(parts[1..], sep)
  }

  /** String.split(",", limit) for a positive limit: at most `limit` fields, the last one holding the rest. */
  function SplitLimit(s: string, limit: nat): (r: seq<string>)
    requires limit >= 1
    ensures 1 <= |r| <= limit
  {
    var f := Fields(s, ',');
    if |f| <= limit then f else f[..limit - 1] + [Join(f[limit - 1..], ",")]
  }

  /** The list with its trailing empty strings removed. */
  function DropTrailingEmpty(f: seq<string>): (r: seq<string>)
    ensures |r| <= |f| && r == f[..|r|]
    ensures r == [] || r[|r| - 1] != ""
    ensures forall i :: |r| <= i < |f| ==> f[i] == ""
  {
    if f != [] && f[|f| - 1] == "" then DropTrailingEmpty(f[..|f| - 1]) else f
  }

  /**
   * String.split(","): all fields, trailing empty ones removed, except that a
   * string without any comma splits into itself (so "" splits into [""]).
   */
  function JavaSplit(s: string): (r: seq<string>)
  {
    if ',' !in s then [s] else DropTrailingEmpty(Fields(s, ','))
  }

  function DigitChar(d: nat): (c: char)
    requires d < 10
    ensures '0' <= c <= '9'
  {
    (('0' as int) + d) as char
  }

  function NatToString(n: nat): (r: string)
    ensures r != [] && forall i :: 0 <= i < |r| ==> '0' <= r[i] <= '9'
  {
    if n < 10 then [DigitChar(n)] else NatToString(n / 10) + [DigitChar(n % 10)]
  }

  /** Integer.toString / string concatenation of an int. */
  function IntToString(n: int): (r: string)
    ensures r != [] && ',' !in r && !IsSpace(r[0]) && !IsSpace(r[|r| - 1])
  {
    if n < 0 then "-" + NatToString(-n) else NatToString(n)
  }

  // ---------------------------------------------------------------------
  // Lemmas
  // ---------------------------------------------------------------------

  lemma {:induction false} TrimStartLower(s: string)
    ensures TrimStart(ToLower(s)) == ToLower(TrimStart(s))
    decreases |s|
  {
    if s != [] {
      assert ToLower(s)[1..] == ToLower(s[1..]);
      if IsSpace(s[0]) { TrimStartLower(s[1..]); }
    }
  }

  lemma {:induction false} TrimEndLower(s: string)
    ensures TrimEnd(ToLower(s)) == ToLower(TrimEnd(s))
    decreases |s|
  {
    if s != [] {
      assert ToLower(s)[..|s| - 1] == ToLower(s[..|s| - 1]);
      if IsSpace(s[|s| - 1]) { TrimEndLower(s[..|s| - 1]); }
    }
  }

  /** Lower-casing and trimming commute, since lower-casing never creates or removes a space. */
  lemma TrimLower(s: string)
    ensures Trim(ToLower(s)) == ToLower(Trim(s))
  {
    TrimStartLower(s);
    TrimEndLower(TrimStart(s));
  }

  /** Neither end of `s` is blank: trimming leaves it as it is. */
  predicate Recortado(s: string) {
    s == [] || (!IsSpace(s[0]) && !IsSpace(s[|s| - 1]))
  }

  lemma TrimRecortado(s: string)
    requires Recortado(s)
    ensures Trim(s) == s
  {
    assert TrimStart(s) == s;
    assert TrimEnd(s) == s;
  }

  /** A string with a character that is not blank somewhere in it is not blank. */
  lemma {:induction false} NoBlancoSiHay(t: string, i: nat)
    requires i < |t| && !IsSpace(t[i])
    ensures !IsBlank(t)
    decreases i
  {
    if IsSpace(t[0]) {
      NoBlancoSiHay(t[1..], i - 1);
      assert TrimStart(t) == TrimStart(t[1..]);
      assert Trim(t) == Trim(t[1..]);
    } else {
      NoBlancoPorInicio(t);
    }
  }

  /** Trimming keeps a string that does not start with a blank from becoming empty. */
  lemma {:induction false} TrimEndNoVacio(t: string)
    requires t != [] && !IsSpace(t[0])
    ensures TrimEnd(t) != []
    decreases |t|
  {
    if IsSpace(t[|t| - 1]) {
      TrimEndNoVacio(t[..|t| - 1]);
    }
  }

  /** A string whose first character is not blank is not blank. */
  lemma NoBlancoPorInicio(t: string)
    requires t != [] && !IsSpace(t[0])
    ensures !IsBlank(t)
  {
    assert TrimStart(t) == t;
    TrimEndNoVacio(t);
  }

  /** Trimming a word padded with one space on each side gives the word. */
  lemma TrimPadded(w: string)
    requires w != [] && !IsSpace(w[0]) && !IsSpace(w[|w| - 1])
    ensures Trim(" " + w + " ") == w
  {
    var s, t := " " + w + " ", w + " ";
    assert TrimStart(s) == t by {
      assert s[0] == ' ' && s[1..] == t;
      assert TrimStart(t) == t;
    }
    assert TrimEnd(t) == w by {
      assert t[|t| - 1] == ' ' && t[..|t| - 1] == w;
      assert TrimEnd(w) == w;
    }
  }

  /** Lower-casing keeps the padding around a word. */
  lemma ToLowerPadded(w: string)
    ensures ToLower(" " + w + " ") == " " + ToLower(w) + " "
  {
  }

  /** Accented capitals are lower-cased too: "PIÑA" and "piña" are equal ignoring case. */
  lemma MinusculasLatinas()
    ensures ToLower("PIÑA") == "piña"
    ensures EqualsIgnoreCase("Piña", "PIÑA")
  {
    assert LowerChar('P') == 'p' && LowerChar('I') == 'i' && LowerChar('A') == 'a';
    assert LowerChar('Ñ') == 'ñ' && LowerChar('ñ') == 'ñ';
  }

  lemma ToLowerIdempotent(s: string)
    ensures ToLower(ToLower(s)) == ToLower(s)
  {
  }

  /** Trimming twice is trimming once. */
  lemma TrimIdempotent(s: string)
    ensures Trim(Trim(s)) == Trim(s)
  {
    var t := Trim(s);
    assert TrimStart(t) == t;
    assert TrimEnd(t) == t;
  }

  /** Lower-casing neither makes nor removes a comma. */
  lemma ComaLower(c: char)
    ensures LowerChar(c) == ',' <==> c == ','
  {
  }

  /** Every string of `f` lower-cased. */
  function LowerAll(f: seq<string>): (r: seq<string>)
    ensures |r| == |f| && forall i :: 0 <= i < |f| ==> r[i] == ToLower(f[i])
  {
    if f == [] then [] else [ToLower(f[0])] + LowerAll(f[1..])
  }

  lemma ToLowerCons(c: char, w: string)
    ensures ToLower([c] + w) == [LowerChar(c)] + ToLower(w)
  {
  }

  /** Splitting at commas and lower-casing commute, field by field. */
  lemma {:induction false} FieldsLower(s: string)
    ensures Fields(ToLower(s), ',') == LowerAll(Fields(s, ','))
    decreases |s|
  {
    if s != [] {
      var t := ToLower(s);
      FieldsLower(s[1..]);
      assert t[1..] == ToLower(s[1..]);
      ComaLower(s[0]);
      var rest := Fields(s[1..], ',');
      var restL := LowerAll(rest);
      assert Fields(t, ',') == if t[0] == ',' then [""] + restL else [[t[0]] + restL[0]] + restL[1..];
      if s[0] == ',' {
        assert LowerAll([""] + rest) == [ToLower("")] + restL by {
          assert ([""] + rest)[1..] == rest;
        }
      } else {
        var w := [s[0]] + rest[0];
        ToLowerCons(s[0], rest[0]);
        assert LowerAll([w] + rest[1..]) == [ToLower(w)] + LowerAll(rest[1..]) by {
          assert ([w] + rest[1..])[1..] == rest[1..];
        }
        assert restL == [ToLower(rest[0])] + LowerAll(rest[1..]);
      }
    }
  }

  /** Dropping trailing empty fields and lower-casing commute. */
  lemma {:induction false} DropTrailingEmptyLower(f: seq<string>, g: seq<string>)
    requires |g| == |f| && forall i :: 0 <= i < |f| ==> g[i] == ToLower(f[i])
    ensures |DropTrailingEmpty(g)| == |DropTrailingEmpty(f)|
    decreases |f|
  {
    if f != [] {
      DropTrailingEmptyLower(f[..|f| - 1], g[..|g| - 1]);
    }
  }

  /** String.split(",") of the lower-cased text is the lower-cased split. */
  lemma JavaSplitLower(s: string)
    ensures |JavaSplit(ToLower(s))| == |JavaSplit(s)|
    ensures forall i :: 0 <= i < |JavaSplit(s)| ==> JavaSplit(ToLower(s))[i] == ToLower(JavaSplit(s)[i])
  {
    assert ',' in ToLower(s) <==> ',' in s by {
      forall k | 0 <= k < |s| ensures ToLower(s)[k] == ',' <==> s[k] == ',' {
        ComaLower(s[k]);
      }
    }
    if ',' in s {
      FieldsLower(s);
      DropTrailingEmptyLower(Fields(s, ','), Fields(ToLower(s), ','));
    }
  }

  /** A string is blank exactly when its lower-cased form is. */
  lemma BlankLower(s: string)
    ensures IsBlank(ToLower(s)) <==> IsBlank(s)
  {
    TrimLower(s);
  }

  lemma {:induction false} FieldsNoSep(a: string, sep: char)
    requires sep !in a
    ensures Fields(a, sep) == [a]
    decreases |a|
  {
    if a != [] {
      FieldsNoSep(a[1..], sep);
      assert a[0] != sep;
      assert [a[0]] + a[1..] == a;
    }
  }

  lemma {:induction false} FieldsAfterSep(a: string, b: string, sep: char)
    requires sep !in a
    ensures Fields(a + [sep] + b, sep) == [a] + Fields(b, sep)
    decreases |a|
  {
    if a == [] {
      assert (a + [sep] + b)[1..] == b;
    } else {
      var s := a + [sep] + b;
      assert s[0] == a[0] && a[0] != sep;
      assert s[1..] == a[1..] + [sep] + b;
      FieldsAfterSep(a[1..], b, sep);
      assert Fields(s[1..], sep) == [a[1..]] + Fields(b, sep);
      assert [a[0]] + a[1..] == a;
    }
  }

  /** Splitting a join of separator-free parts gives the parts back. */
  lemma {:induction false} FieldsOfJoin(parts: seq<string>, sep: char)
    requires |parts| >= 1
    requires forall i :: 0 <= i < |parts| ==> sep !in parts[i]
    ensures Fields(Join(parts, [sep]), sep) == parts
    decreases |parts|
  {
    if |parts| == 1 {
      FieldsNoSep(parts[0], sep);
    } else {
      FieldsOfJoin(parts[1..], sep);
      FieldsAfterSep(parts[0], Join(parts[1..], [sep]), sep);
      assert [parts[0]] + parts[1..] == parts;
    }
  }

  lemma DropTrailingEmptyKeeps(f: seq<string>)
    requires f != [] && f[|f| - 1] != ""
    ensures DropTrailingEmpty(f) == f
  {
  }

  /** String.split on a comma-join of comma-free parts whose last part is not empty. */
  lemma JavaSplitOfJoin(parts: seq<string>)
    requires |parts| >= 2
    requires forall i :: 0 <= i < |parts| ==> ',' !in parts[i]
    requires parts[|parts| - 1] != ""
    ensures JavaSplit(Join(parts, ",")) == parts
  {
    FieldsOfJoin(parts, ',');
    assert ',' in Join(parts, ",") by {
      JoinHasSep(parts);
    }
  }

  lemma JoinHasSep(parts: seq<string>)
    requires |parts| >= 2
    ensures ',' in Join(parts, ",")
  {
    var j := Join(parts, ",");
    assert j == parts[0] + "," + Join(parts[1..], ",");
    assert j[|parts[0]|] == ',';
  }

  /** The value Join produces for a non-empty list: its head, a separator, the join of the rest. */
  /** A join of four parts, written out. */
  lemma JoinCuatro(parts: seq<string>, sep: string)
    requires |parts| == 4
    ensures Join(parts, sep) == parts[0] + sep + parts[1] + sep + parts[2] + sep + parts[3]
  {
    assert parts[2..][1..] == parts[3..];
    assert Join(parts[2..], sep) == parts[2] + sep + parts[3];
    assert parts[1..][1..] == parts[2..];
    assert Join(parts[1..], sep) == parts[1] + sep + (parts[2] + sep + parts[3]);
  }

  lemma JoinCons(x: string, rest: seq<string>, sep: string)
    requires rest != []
    ensures Join([x] + rest, sep) == x + sep + Join(rest, sep)
  {
    assert ([x] + rest)[1..] == rest;
  }

  /** Joining two non-empty lists is joining each and putting one separator between. */
  lemma {:induction false} JoinAppend(a: seq<string>, b: seq<string>, sep: string)
    requires a != [] && b != []
    ensures Join(a + b, sep) == Join(a, sep) + sep + Join(b, sep)
    decreases |a|
  {
    if |a| == 1 {
      assert a + b == [a[0]] + b;
      JoinCons(a[0], b, sep);
    } else {
      assert a + b == [a[0]] + (a[1..] + b);
      JoinCons(a[0], a[1..] + b, sep);
      JoinAppend(a[1..], b, sep);
      JoinCons(a[0], a[1..], sep);
      assert [a[0]] + a[1..] == a;
    }
  }

  // ---------------------------------------------------------------------
  // UTF-16: what a java.lang.String stores and String.compareTo compares
  // ---------------------------------------------------------------------

  /** The UTF-16 code units of one character: itself below U+10000, otherwise a surrogate pair. */
  function Utf16Char(c: char): (r: seq<int>)
    ensures |r| == 1 <==> c as int < 0x10000
    ensures |r| == 1 ==> r[0] == c as int
    ensures |r| == 2 ==> 0xD800 <= r[0] < 0xDC00 <= r[1] < 0xE000
    ensures |r| == 1 || |r| == 2
  {
    if c as int < 0x10000 then [c as int]
    else
      var v := c as int - 0x10000;
      [0xD800 + v / 0x400, 0xDC00 + v % 0x400]
  }

  /** The UTF-16 code units of a string, in order. */
  function Utf16(s: string): (r: seq<int>)
    ensures |r| >= |s|
    ensures forall k :: 0 <= k < |r| ==> 0 <= r[k] < 0x10000
  {
    if s == [] then [] else Utf16Char(s[0]) + Utf16(s[1..])
  }

  /**
   * Code units read back as characters: a high surrogate followed by a low
   * one is a supplementary character; an unpaired surrogate is no character.
   */
  function DesdeUtf16(u: seq<int>): (r: Option<string>)
    decreases |u|
  {
    if u == [] then Some([])
    else if 0xD800 <= u[0] < 0xDC00 then
      if |u| >= 2 && 0xDC00 <= u[1] < 0xE000 then
        var rest := DesdeUtf16(u[2..]);
        var c := (u[0] - 0xD800) * 0x400 + (u[1] - 0xDC00) + 0x10000;
        if rest.Some? then Some([c as char] + rest.value) else None
      else None
    else if 0xDC00 <= u[0] < 0xE000 || u[0] < 0 || u[0] >= 0x10000 then None
    else
      var rest := DesdeUtf16(u[1..]);
      if rest.Some? then Some([u[0] as char] + rest.value) else None
  }

  /** A character's code units decode to that character. */
  lemma Utf16CharDesde(c: char, tail: seq<int>)
    ensures DesdeUtf16(Utf16Char(c) + tail) ==
      if DesdeUtf16(tail).Some? then Some([c] + DesdeUtf16(tail).value) else None
  {
    var u := Utf16Char(c) + tail;
    if c as int < 0x10000 {
      assert u[1..] == tail;
    } else {
      var v := c as int - 0x10000;
      assert v / 0x400 * 0x400 + v % 0x400 == v;
      assert u[2..] == tail;
    }
  }

  /** Decoding the code units of a string gives back the string. */
  lemma {:induction false} Utf16RoundTrip(s: string)
    ensures DesdeUtf16(Utf16(s)) == Some(s)
  {
    if s != [] {
      Utf16RoundTrip(s[1..]);
      Utf16CharDesde(s[0], Utf16(s[1..]));
      assert [s[0]] + s[1..] == s;
    }
  }
}
