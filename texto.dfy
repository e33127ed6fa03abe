/** String helpers with the meaning of the Python `str` methods the system uses:
    `strip`, `in`, `find`, `split` on one character, `join`, `startswith`,
    `endswith`, code-point ordering, and the Unicode 15.0 decimal-digit
    table (`CeroDecimal`, `ValorDecimal`) behind `isdecimal` and `\d`. */
module Texto {
  import Valores

  /** Python's `str.isspace` for one character. */
  predicate EsEspacio(c: char) {
    || c == ' '
    || ('\t' <= c <= '\r')
    || ('\U{001C}' <= c <= '\U{001F}')
    || c == '\U{0085}' || c == '\U{00A0}' || c == '\U{1680}'
    || ('\U{2000}' <= c <= '\U{200A}')
    || c == '\U{2028}' || c == '\U{2029}' || c == '\U{202F}'
    || c == '\U{205F}' || c == '\U{3000}'
  }

  /** Every character is whitespace (also true of the empty string). */
  ghost predicate EnBlanco(s: string) {
    forall i :: 0 <= i < |s| ==> EsEspacio(s[i])
  }

  /** Where the first character at or after `i` that is not whitespace
      sits, or `|s|` when there is none. */
  function PrimerNoEspacio(s: string, i: nat): (p: nat)
    requires i <= |s|
    ensures i <= p <= |s|
    ensures p == |s| || !EsEspacio(s[p])
    ensures forall k :: i <= k < p ==> EsEspacio(s[k])
    decreases |s| - i
  {
    if i < |s| && EsEspacio(s[i]) then PrimerNoEspacio(s, i + 1) else i
  }

  /** One past the last character before `j` that is not whitespace, or 0
      when there is none. */
  function FinNoEspacio(s: string, j: nat): (p: nat)
    requires j <= |s|
    ensures p <= j
    ensures p == 0 || !EsEspacio(s[p - 1])
    ensures forall k :: p <= k < j ==> EsEspacio(s[k])
  {
    if j > 0 && EsEspacio(s[j - 1]) then FinNoEspacio(s, j - 1) else j
  }

  /** The first non-whitespace character is where the scan stops. */
  lemma PrimerNoEspacioEn(s: string, i: nat, q: nat)
    requires i <= q < |s| && !EsEspacio(s[q])
    requires forall k :: i <= k < q ==> EsEspacio(s[k])
    ensures PrimerNoEspacio(s, i) == q
  {
  }

  /** The last non-whitespace character is where the backward scan stops. */
  lemma FinNoEspacioEn(s: string, j: nat, q: nat)
    requires 0 < q <= j <= |s| && !EsEspacio(s[q - 1])
    requires forall k :: q <= k < j ==> EsEspacio(s[k])
    ensures FinNoEspacio(s, j) == q
  {
  }

  /** `s.lstrip()`: the suffix left after dropping leading whitespace. */
  function QuitarIzq(s: string): (r: string)
    ensures |r| <= |s| && r == s[|s| - |r|..]
    ensures r == [] || !EsEspacio(r[0])
    ensures forall i :: 0 <= i < |s| - |r| ==> EsEspacio(s[i])
  {
    s[PrimerNoEspacio(s, 0)..]
  }

  /** `s.rstrip()`: the prefix left after dropping trailing whitespace. */
  function QuitarDer(s: string): (r: string)
    ensures |r| <= |s| && r == s[..|r|]
    ensures r == [] || !EsEspacio(r[|r| - 1])
    ensures forall i :: |r| <= i < |s| ==> EsEspacio(s[i])
  {
    s[..FinNoEspacio(s, |s|)]
  }

  /** Dropping leading whitespace a second time changes nothing. */
  lemma QuitarIzqIdempotente(s: string)
    ensures QuitarIzq(QuitarIzq(s)) == QuitarIzq(s)
  {
  }

  /** Dropping trailing whitespace a second time changes nothing. */
  lemma QuitarDerIdempotente(s: string)
    ensures QuitarDer(QuitarDer(s)) == QuitarDer(s)
  {
  }

  /** `s.strip()`. */
  function Strip(s: string): string {
    QuitarDer(QuitarIzq(s))
  }

  /** Where the slice kept by `strip` starts. */
  function InicioStrip(s: string): nat {
    |s| - |QuitarIzq(s)|
  }

  /** What `strip` returns: a slice of the input with no whitespace at either end;
      it is empty exactly when the input is blank. */
  lemma StripIsSlice(s: string)
    ensures InicioStrip(s) + |Strip(s)| <= |s|
    ensures Strip(s) == s[InicioStrip(s)..InicioStrip(s) + |Strip(s)|]
    ensures Strip(s) == [] || (!EsEspacio(Strip(s)[0]) && !EsEspacio(Strip(s)[|Strip(s)| - 1]))
    ensures Strip(s) == [] <==> EnBlanco(s)
  {
    StripEsTrozo(s);
    StripBordes(s);
    StripVacio(s);
  }

  lemma StripEsTrozo(s: string)
    ensures InicioStrip(s) + |Strip(s)| <= |s|
    ensures Strip(s) == s[InicioStrip(s)..InicioStrip(s) + |Strip(s)|]
  {
    var l := QuitarIzq(s);
    var r := QuitarDer(l);
    assert l == s[InicioStrip(s)..];
    assert r == l[..|r|];
  }

  lemma StripBordes(s: string)
    ensures Strip(s) == [] || (!EsEspacio(Strip(s)[0]) && !EsEspacio(Strip(s)[|Strip(s)| - 1]))
  {
    var l := QuitarIzq(s);
    var r := QuitarDer(l);
    if r != [] {
      assert r[0] == l[0];
    }
  }

  /** `strip` leaves nothing exactly of a blank string. */
  lemma StripVacio(s: string)
    ensures Strip(s) == [] <==> EnBlanco(s)
  {
    var l := QuitarIzq(s);
    if l != [] {
      assert !EsEspacio(l[0]) && l[0] == s[|s| - |l|];
      assert |QuitarDer(l)| > 0;
    }
  }

  /** `strip` is idempotent. */
  lemma StripIdempotent(s: string)
    ensures Strip(Strip(s)) == Strip(s)
  {
    var r := Strip(s);
    StripIsSlice(s);
    assert QuitarIzq(r) == r;
    assert QuitarDer(r) == r;
  }

  /** A string that neither starts nor ends with whitespace is its own strip. */
  lemma StripSinEspacios(s: string)
    requires |s| > 0 && !EsEspacio(s[0]) && !EsEspacio(s[|s| - 1])
    ensures Strip(s) == s
  {
    assert QuitarIzq(s) == s;
    assert QuitarDer(s) == s;
  }

  /** Dropping leading whitespace from `x + y` stops inside `x` when `x` is not blank. */
  lemma QuitarIzqConcat(x: string, y: string)
    requires !EnBlanco(x)
    ensures QuitarIzq(x + y) == QuitarIzq(x) + y
  {
    var p := PrimerNoEspacio(x, 0);
    assert p < |x|;
    PrimerNoEspacioEn(x + y, 0, p);
    assert (x + y)[p..] == x[p..] + y;
  }

  /** Dropping trailing whitespace from `x + y` stops inside `y` when `y` is not blank. */
  lemma QuitarDerConcat(x: string, y: string)
    requires !EnBlanco(y)
    ensures QuitarDer(x + y) == x + QuitarDer(y)
  {
    var p := FinNoEspacio(y, |y|);
    assert p > 0;
    FinNoEspacioEn(x + y, |x + y|, |x| + p);
    assert (x + y)[..|x| + p] == x + y[..p];
  }

  // ---------------------------------------------------------------------------
  // Substrings

  /** `p` occurs in `s` at index `i`. */
  predicate OccursAt(s: string, p: string, i: int) {
    0 <= i && i + |p| <= |s| && s[i..i + |p|] == p
  }

  /** `s.find(p, desde)`: the first index at or after `desde` where `p` occurs, or -1. */
  function Find(s: string, p: string, desde: nat): (r: int)
    ensures r == -1 || (desde <= r && OccursAt(s, p, r))
    ensures r == -1 ==> forall i :: desde <= i ==> !OccursAt(s, p, i)
    ensures r >= 0 ==> forall i :: desde <= i < r ==> !OccursAt(s, p, i)
    decreases |s| - desde
  {
    if desde + |p| > |s| then -1
    else if s[desde..desde + |p|] == p then desde
    else Find(s, p, desde + 1)
  }

  /** Python's `p in s` on strings. */
  predicate Contains(s: string, p: string) {
    Find(s, p, 0) >= 0
  }

  lemma ContainsIff(s: string, p: string)
    ensures Contains(s, p) <==> exists i :: OccursAt(s, p, i)
  {
  }

  /** A pattern holding two adjacent characters that never stand side by side in `s` cannot occur in `s`. */
  lemma NoContienePorPar(s: string, p: string, j: nat)
    requires j + 1 < |p|
    requires forall i :: 0 <= i < |s| - 1 ==> !(s[i] == p[j] && s[i + 1] == p[j + 1])
    ensures !Contains(s, p)
  {
    forall i | 0 <= i <= |s| - |p|
      ensures !OccursAt(s, p, i)
    {
      assert s[i..i + |p|][j] == s[i + j] && s[i..i + |p|][j + 1] == s[i + j + 1];
    }
    ContainsIff(s, p);
  }

  /** `find` returns the first occurrence at or after `desde`. */
  lemma FindEn(s: string, p: string, desde: nat, i: nat)
    requires desde <= i && OccursAt(s, p, i)
    requires forall j :: desde <= j < i ==> !OccursAt(s, p, j)
    ensures Find(s, p, desde) == i
  {
  }

  /** `find` returns -1 when nothing occurs at or after `desde`. */
  lemma FindNinguna(s: string, p: string, desde: nat)
    requires forall j :: desde <= j ==> !OccursAt(s, p, j)
    ensures Find(s, p, desde) == -1
  {
  }

  /** Every slice of `s` occurs in `s`. */
  lemma TrozoContenido(s: string, a: nat, b: nat)
    requires a <= b <= |s|
    ensures Contains(s, s[a..b])
  {
    assert OccursAt(s, s[a..b], a);
  }

  /** A pattern found in a slice of `s` is found in `s`. */
  lemma ContainsSlice(s: string, a: nat, b: nat, p: string)
    requires a <= b <= |s|
    requires Contains(s[a..b], p)
    ensures Contains(s, p)
  {
    var t := s[a..b];
    var i := Find(t, p, 0);
    assert OccursAt(t, p, i);
    assert t == s[..b][a..];
    OccursAtSufijo(s[..b], a, p, i);
    OccursAtPrefijo(s, b, p, a + i);
  }

  /** A slice of a slice is a slice of the whole. */
  lemma SliceDeSlice<T>(s: seq<T>, x: nat, y: nat, a: nat, b: nat)
    requires x <= y <= |s| && a <= b <= y - x
    ensures s[x..y][a..b] == s[x + a..x + b]
  {
    forall i | 0 <= i < b - a ensures s[x..y][a..b][i] == s[x + a..x + b][i] {
      assert s[x..y][a..b][i] == s[x..y][a + i] == s[x + a + i];
    }
  }

  /** A prefix of a suffix is a slice of the whole. */
  lemma PrefijoDeSufijo<T>(s: seq<T>, k: nat, n: nat)
    requires k + n <= |s|
    ensures s[k..][..n] == s[k..k + n]
  {
    forall i | 0 <= i < n ensures s[k..][..n][i] == s[k..k + n][i] {
      assert s[k..][..n][i] == s[k..][i] == s[k + i];
    }
  }

  /** A prefix of a prefix is a prefix. */
  lemma PrefijoDePrefijo<T>(u: seq<T>, x: seq<T>, w: seq<T>)
    requires |x| <= |u| && x == u[..|x|]
    requires |w| <= |x| && w == x[..|w|]
    ensures w == u[..|w|]
  {
    forall i | 0 <= i < |w| ensures w[i] == u[i] {
      assert w[i] == x[i] == u[i];
    }
  }

  /** A piece of a text in which `p` does not occur holds no `p` either. */
  lemma SinEnTrozo(t: string, a: nat, b: nat, p: string)
    requires a <= b <= |t| && !Contains(t, p)
    ensures !Contains(t[a..b], p)
  {
    ContainsIff(t, p);
    ContainsIff(t[a..b], p);
    assert t[a..b] == t[..b][a..];
    forall i | 0 <= i ensures !OccursAt(t[a..b], p, i) {
      OccursAtSufijo(t[..b], a, p, i);
      OccursAtPrefijo(t, b, p, a + i);
    }
  }

  /** An occurrence in a suffix of `s` is an occurrence in `s`, shifted by where the suffix starts. */
  lemma OccursAtSufijo(s: string, k: nat, p: string, i: nat)
    requires k <= |s|
    ensures OccursAt(s[k..], p, i) <==> OccursAt(s, p, k + i)
  {
    if i + |p| <= |s| - k {
      assert s[k..][i..i + |p|] == s[k + i..k + i + |p|];
    }
  }

  /** An occurrence in a prefix of `s` is an occurrence in `s` that ends inside the prefix. */
  lemma OccursAtPrefijo(s: string, k: nat, p: string, i: nat)
    requires k <= |s|
    ensures OccursAt(s[..k], p, i) <==> OccursAt(s, p, i) && i + |p| <= k
  {
    if i + |p| <= k {
      assert s[..k][i..i + |p|] == s[i..i + |p|];
    }
  }

  /** `s.split(sep)[0]` for a non-empty `sep`: the text before the first occurrence, or all of `s`. */
  function Antes(s: string, sep: string): string {
    var i := Find(s, sep, 0);
    if i < 0 then s else s[..i]
  }

  /** The text after the first occurrence of `sep`; `s.split(sep)[1]` is `Antes(Tras(s, sep), sep)`. */
  function Tras(s: string, sep: string): string
    requires Contains(s, sep)
  {
    s[Find(s, sep, 0) + |sep|..]
  }

  /** With its first occurrence at `j`, `split(sep)[0]` is the text before `j`. */
  lemma AntesEn(s: string, sep: string, j: nat)
    requires OccursAt(s, sep, j) && forall i :: 0 <= i < j ==> !OccursAt(s, sep, i)
    ensures Antes(s, sep) == s[..j]
  {
    FindEn(s, sep, 0, j);
  }

  /** With no occurrence, `split(sep)[0]` is the whole text. */
  lemma AntesSin(s: string, sep: string)
    requires forall i :: 0 <= i ==> !OccursAt(s, sep, i)
    ensures Antes(s, sep) == s
  {
    FindNinguna(s, sep, 0);
  }

  /** `split(sep)[0]` is a prefix of the text that holds no `sep` (for a non-empty `sep`). */
  lemma AntesPrefijo(s: string, sep: string)
    requires |sep| > 0
    ensures StartsWith(s, Antes(s, sep))
    ensures !Contains(Antes(s, sep), sep)
  {
    var r := Antes(s, sep);
    var f := Find(s, sep, 0);
    ContainsIff(r, sep);
    if f >= 0 {
      forall i | 0 <= i ensures !OccursAt(r, sep, i) {
        OccursAtPrefijo(s, f, sep, i);
      }
    }
  }

  predicate StartsWith(s: string, p: string) {
    |p| <= |s| && s[..|p|] == p
  }

  predicate EndsWith(s: string, p: string) {
    |p| <= |s| && s[|s| - |p|..] == p
  }

  /** A slice bound as Python reads it: negative counts from the end, and the
      result is clamped to `0..n`. */
  function CotaPython(i: int, n: nat): (r: nat)
    ensures r <= n
    ensures 0 <= i <= n ==> r == i
    ensures i < 0 && n + i >= 0 ==> r == n + i
  {
    if i < 0 then (if i + n < 0 then 0 else i + n)
    else if i > n then n
    else i
  }

  /** `s[i:j]` with Python's rules for negative and out-of-range bounds. */
  function Rebanada<T>(s: seq<T>, i: int, j: int): (r: seq<T>)
    ensures |r| <= |s|
    ensures 0 <= i <= j <= |s| ==> r == s[i..j]
    ensures 0 <= i && j < 0 && i <= |s| + j ==> r == s[i..|s| + j]
  {
    var a := CotaPython(i, |s|);
    var b := CotaPython(j, |s|);
    if a < b then s[a..b] else []
  }

  // ---------------------------------------------------------------------------
  // split / join on one separator character

  /** `s.split(sep)` for a one-character separator. */
  function Split(s: string, sep: char): (r: seq<string>)
    ensures |r| >= 1
    ensures forall k :: 0 <= k < |r| ==> sep !in r[k]
  {
    if |s| == 0 then [""]
    else
      var rest := Split(s[1..], sep);
      if s[0] == sep then [""] + rest else [[s[0]] + rest[0]] + rest[1..]
  }

  /** `sep.join(parts)`. */
  function Join(parts: seq<string>, sep: char): string {
    if |parts| == 0 then ""
    else if |parts| == 1 then parts[0]
    else parts[0] + [sep] + Join(parts[1..], sep)
  }

  /** Joining what `split` produced gives the string back. */
  lemma {:induction false} JoinSplit(s: string, sep: char)
    ensures Join(Split(s, sep), sep) == s
  {
    if |s| > 0 {
      var rest := Split(s[1..], sep);
      JoinSplit(s[1..], sep);
      if s[0] == sep {
        assert Split(s, sep) == [""] + rest;
        assert ([""] + rest)[1..] == rest;
      } else {
        var parts := Split(s, sep);
        assert parts == [[s[0]] + rest[0]] + rest[1..];
        if |rest| == 1 {
          assert Join(rest, sep) == rest[0];
        } else {
          assert Join(rest, sep) == rest[0] + [sep] + Join(rest[1..], sep);
          assert parts[1..] == rest[1..];
        }
      }
    }
  }

  /** A piece with no separator splits to itself. */
  lemma {:induction false} SplitNoSep(x: string, sep: char)
    requires sep !in x
    ensures Split(x, sep) == [x]
  {
    if |x| > 0 {
      SplitNoSep(x[1..], sep);
      assert [x[0]] + x[1..] == x;
    }
  }

  /** Two pieces with no separator, joined by one, split back into those two pieces. */
  lemma SplitDos(x: string, sep: char, y: string)
    requires sep !in x && sep !in y
    ensures Split(x + [sep] + y, sep) == [x, y]
  {
    SplitPrefix(x, sep, y);
    SplitNoSep(y, sep);
  }

  /** Splitting `x + sep + t` where `x` has no separator peels `x` off. */
  lemma {:induction false} SplitPrefix(x: string, sep: char, t: string)
    requires sep !in x
    ensures Split(x + [sep] + t, sep) == [x] + Split(t, sep)
  {
    if |x| == 0 {
      assert x + [sep] + t == [sep] + t;
      assert ([sep] + t)[1..] == t;
    } else {
      SplitPrefix(x[1..], sep, t);
      assert (x + [sep] + t)[1..] == x[1..] + [sep] + t;
      assert [x[0]] + x[1..] == x;
    }
  }

  /** Splitting a join of separator-free pieces gives the pieces back. */
  lemma {:induction false} SplitJoin(parts: seq<string>, sep: char)
    requires |parts| >= 1
    requires forall k :: 0 <= k < |parts| ==> sep !in parts[k]
    ensures Split(Join(parts, sep), sep) == parts
  {
    if |parts| == 1 {
      SplitNoSep(parts[0], sep);
    } else {
      SplitJoin(parts[1..], sep);
      SplitPrefix(parts[0], sep, Join(parts[1..], sep));
      assert [parts[0]] + parts[1..] == parts;
    }
  }

  /** A join of two or more pieces ends with the separator and the last piece. */
  lemma {:induction false} JoinLast(parts: seq<string>, sep: char)
    requires |parts| >= 2
    ensures Join(parts, sep) == Join(parts[..|parts| - 1], sep) + [sep] + parts[|parts| - 1]
  {
    if |parts| > 2 {
      JoinLast(parts[1..], sep);
      assert parts[1..][..|parts| - 2] == parts[..|parts| - 1][1..];
    }
  }

  // ---------------------------------------------------------------------------
  // Digits and ordering

  predicate EsDigitoAscii(c: char) {
    '0' <= c <= '9'
  }

  /** The first code point of the run of ten decimal digits (Unicode
      category Nd, as of Unicode 15.0) that holds code point `n`, or -1 when
      `n` is no decimal digit. Every such run is the digits 0 to 9 in order. */
  function CeroDecimal(n: int): (z: int)
    ensures z == -1 || z <= n < z + 10
    ensures 0x30 <= n <= 0x39 ==> z == 0x30
  {
    if n < 0x0030 then -1
    else if n <= 0x0039 then 0x0030
    else if n < 0x0660 then -1
    else if n <= 0x0669 then 0x0660
    else if n < 0x06F0 then -1
    else if n <= 0x06F9 then 0x06F0
    else if n < 0x07C0 then -1
    else if n <= 0x07C9 then 0x07C0
    else if n < 0x0966 then -1
    else if n <= 0x096F then 0x0966
    else if n < 0x09E6 then -1
    else if n <= 0x09EF then 0x09E6
    else if n < 0x0A66 then -1
    else if n <= 0x0A6F then 0x0A66
    else if n < 0x0AE6 then -1
    else if n <= 0x0AEF then 0x0AE6
    else if n < 0x0B66 then -1
    else if n <= 0x0B6F then 0x0B66
    else if n < 0x0BE6 then -1
    else if n <= 0x0BEF then 0x0BE6
    else if n < 0x0C66 then -1
    else if n <= 0x0C6F then 0x0C66
    else if n < 0x0CE6 then -1
    else if n <= 0x0CEF then 0x0CE6
    else if n < 0x0D66 then -1
    else if n <= 0x0D6F then 0x0D66
    else if n < 0x0DE6 then -1
    else if n <= 0x0DEF then 0x0DE6
    else if n < 0x0E50 then -1
    else if n <= 0x0E59 then 0x0E50
    else if n < 0x0ED0 then -1
    else if n <= 0x0ED9 then 0x0ED0
    else if n < 0x0F20 then -1
    else if n <= 0x0F29 then 0x0F20
    else if n < 0x1040 then -1
    else if n <= 0x1049 then 0x1040
    else if n < 0x1090 then -1
    else if n <= 0x1099 then 0x1090
    else if n < 0x17E0 then -1
    else if n <= 0x17E9 then 0x17E0
    else if n < 0x1810 then -1
    else if n <= 0x1819 then 0x1810
    else if n < 0x1946 then -1
    else if n <= 0x194F then 0x1946
    else if n < 0x19D0 then -1
    else if n <= 0x19D9 then 0x19D0
    else if n < 0x1A80 then -1
    else if n <= 0x1A89 then 0x1A80
    else if n < 0x1A90 then -1
    else if n <= 0x1A99 then 0x1A90
    else if n < 0x1B50 then -1
    else if n <= 0x1B59 then 0x1B50
    else if n < 0x1BB0 then -1
    else if n <= 0x1BB9 then 0x1BB0
    else if n < 0x1C40 then -1
    else if n <= 0x1C49 then 0x1C40
    else if n < 0x1C50 then -1
    else if n <= 0x1C59 then 0x1C50
    else if n < 0xA620 then -1
    else if n <= 0xA629 then 0xA620
    else if n < 0xA8D0 then -1
    else if n <= 0xA8D9 then 0xA8D0
    else if n < 0xA900 then -1
    else if n <= 0xA909 then 0xA900
    else if n < 0xA9D0 then -1
    else if n <= 0xA9D9 then 0xA9D0
    else if n < 0xA9F0 then -1
    else if n <= 0xA9F9 then 0xA9F0
    else if n < 0xAA50 then -1
    else if n <= 0xAA59 then 0xAA50
    else if n < 0xABF0 then -1
    else if n <= 0xABF9 then 0xABF0
    else if n < 0xFF10 then -1
    else if n <= 0xFF19 then 0xFF10
    else if n < 0x104A0 then -1
    else if n <= 0x104A9 then 0x104A0
    else if n < 0x10D30 then -1
    else if n <= 0x10D39 then 0x10D30
    else if n < 0x11066 then -1
    else if n <= 0x1106F then 0x11066
    else if n < 0x110F0 then -1
    else if n <= 0x110F9 then 0x110F0
    else if n < 0x11136 then -1
    else if n <= 0x1113F then 0x11136
    else if n < 0x111D0 then -1
    else if n <= 0x111D9 then 0x111D0
    else if n < 0x112F0 then -1
    else if n <= 0x112F9 then 0x112F0
    else if n < 0x11450 then -1
    else if n <= 0x11459 then 0x11450
    else if n < 0x114D0 then -1
    else if n <= 0x114D9 then 0x114D0
    else if n < 0x11650 then -1
    else if n <= 0x11659 then 0x11650
    else if n < 0x116C0 then -1
    else if n <= 0x116C9 then 0x116C0
    else if n < 0x11730 then -1
    else if n <= 0x11739 then 0x11730
    else if n < 0x118E0 then -1
    else if n <= 0x118E9 then 0x118E0
    else if n < 0x11950 then -1
    else if n <= 0x11959 then 0x11950
    else if n < 0x11C50 then -1
    else if n <= 0x11C59 then 0x11C50
    else if n < 0x11D50 then -1
    else if n <= 0x11D59 then 0x11D50
    else if n < 0x11DA0 then -1
    else if n <= 0x11DA9 then 0x11DA0
    else if n < 0x11F50 then -1
    else if n <= 0x11F59 then 0x11F50
    else if n < 0x16A60 then -1
    else if n <= 0x16A69 then 0x16A60
    else if n < 0x16AC0 then -1
    else if n <= 0x16AC9 then 0x16AC0
    else if n < 0x16B50 then -1
    else if n <= 0x16B59 then 0x16B50
    else if n < 0x1D7CE then -1
    else if n <= 0x1D7D7 then 0x1D7CE
    else if n < 0x1D7D8 then -1
    else if n <= 0x1D7E1 then 0x1D7D8
    else if n < 0x1D7E2 then -1
    else if n <= 0x1D7EB then 0x1D7E2
    else if n < 0x1D7EC then -1
    else if n <= 0x1D7F5 then 0x1D7EC
    else if n < 0x1D7F6 then -1
    else if n <= 0x1D7FF then 0x1D7F6
    else if n < 0x1E140 then -1
    else if n <= 0x1E149 then 0x1E140
    else if n < 0x1E2F0 then -1
    else if n <= 0x1E2F9 then 0x1E2F0
    else if n < 0x1E4F0 then -1
    else if n <= 0x1E4F9 then 0x1E4F0
    else if n < 0x1E950 then -1
    else if n <= 0x1E959 then 0x1E950
    else if n < 0x1FBF0 then -1
    else if n <= 0x1FBF9 then 0x1FBF0
    else -1
  }

  /** The value of a decimal digit: what `str.isdecimal` accepts, what `\d`
      matches in a `str` pattern and what `int()` reads. */
  function ValorDecimal(c: char): (r: Valores.Option<nat>)
    ensures r.Some? ==> r.value < 10
    ensures EsDigitoAscii(c) ==> r == Valores.Some((c as int - '0' as int) as nat)
  {
    var z := CeroDecimal(c as int);
    if z < 0 then Valores.None else Valores.Some((c as int - z) as nat)
  }

  /** Non-empty and made only of the ASCII digits 0-9. */
  predicate SonDigitosAscii(s: string) {
    |s| > 0 && forall i :: 0 <= i < |s| ==> EsDigitoAscii(s[i])
  }

  /** The number a run of ASCII digits spells in base 10 (0 for the empty string). */
  function ValorDigitos(s: string): nat
    requires forall i :: 0 <= i < |s| ==> EsDigitoAscii(s[i])
  {
    if |s| == 0 then 0
    else
      assert EsDigitoAscii(s[|s| - 1]);
      10 * ValorDigitos(s[..|s| - 1]) + ((s[|s| - 1] as int) - ('0' as int)) as nat
  }

  /** `str(n)` for a natural number. */
  function Decimal(n: nat): (r: string)
    ensures SonDigitosAscii(r)
  {
    var d := [(('0' as int) + n % 10) as char];
    if n < 10 then d else Decimal(n / 10) + d
  }

  /** Reading back what `Decimal` writes gives the number. */
  lemma {:induction false} DecimalValor(n: nat)
    ensures ValorDigitos(Decimal(n)) == n
  {
    var r := Decimal(n);
    if n >= 10 {
      DecimalValor(n / 10);
      assert r[..|r| - 1] == Decimal(n / 10);
    }
  }

  /** Python's `<` on strings: lexicographic order by code point. */
  predicate LexMenor(a: string, b: string)
    decreases |a|
  {
    if |a| == 0 then |b| > 0
    else if |b| == 0 then false
    else if a[0] < b[0] then true
    else if a[0] > b[0] then false
    else LexMenor(a[1..], b[1..])
  }

  lemma {:induction false} LexMenorIrreflexivo(a: string)
    ensures !LexMenor(a, a)
  {
    if |a| > 0 { LexMenorIrreflexivo(a[1..]); }
  }

  lemma {:induction false} LexMenorTransitivo(a: string, b: string, c: string)
    requires LexMenor(a, b) && LexMenor(b, c)
    ensures LexMenor(a, c)
  {
    if |a| > 0 && |b| > 0 && |c| > 0 && a[0] == b[0] == c[0] {
      LexMenorTransitivo(a[1..], b[1..], c[1..]);
    }
  }

  lemma {:induction false} LexMenorTotal(a: string, b: string)
    requires a != b
    ensures LexMenor(a, b) || LexMenor(b, a)
  {
    if |a| > 0 && |b| > 0 && a[0] == b[0] {
      assert a == [a[0]] + a[1..] && b == [b[0]] + b[1..];
      LexMenorTotal(a[1..], b[1..]);
    }
  }

  lemma {:induction false} LexMenorAsimetrico(a: string, b: string)
    requires LexMenor(a, b)
    ensures !LexMenor(b, a)
  {
    if |a| > 0 && a[0] == b[0] {
      LexMenorAsimetrico(a[1..], b[1..]);
    }
  }

  /** A shared prefix does not change the order. */
  lemma {:induction false} LexMenorPrefijoComun(p: string, a: string, b: string)
    ensures LexMenor(p + a, p + b) <==> LexMenor(a, b)
    decreases |p|
  {
    if |p| > 0 {
      assert (p + a)[1..] == p[1..] + a && (p + b)[1..] == p[1..] + b;
      LexMenorPrefijoComun(p[1..], a, b);
    } else {
      assert p + a == a && p + b == b;
    }
  }

  /** Between two strings of the same length the order carries over to
      anything appended to them. */
  lemma {:induction false} LexMenorConcat(a1: string, a2: string, b1: string, b2: string)
    requires |a1| == |b1| && LexMenor(a1, b1)
    ensures LexMenor(a1 + a2, b1 + b2)
    decreases |a1|
  {
    if a1[0] == b1[0] {
      assert (a1 + a2)[1..] == a1[1..] + a2 && (b1 + b2)[1..] == b1[1..] + b2;
      LexMenorConcat(a1[1..], a2, b1[1..], b2);
    }
  }

  /** Made only of ASCII digits, possibly empty. */
  predicate SoloDigitos(s: string) {
    forall i :: 0 <= i < |s| ==> EsDigitoAscii(s[i])
  }

  function Pot10(n: nat): (r: nat)
    ensures r >= 1
  {
    if n == 0 then 1 else 10 * Pot10(n - 1)
  }

  /** The value of the last digit of a run. */
  function ValorUltimo(s: string): (d: nat)
    requires |s| > 0 && SoloDigitos(s)
    ensures d < 10
  {
    assert EsDigitoAscii(s[|s| - 1]);
    ((s[|s| - 1] as int) - ('0' as int)) as nat
  }

  /** A run of digits is ten times its run without the last digit, plus that digit. */
  lemma ValorDigitosUltimo(s: string)
    requires |s| > 0 && SoloDigitos(s)
    ensures SoloDigitos(s[..|s| - 1])
    ensures ValorDigitos(s) == 10 * ValorDigitos(s[..|s| - 1]) + ValorUltimo(s)
  {
  }

  /** The value of two runs of digits written one after the other. */
  lemma {:induction false} ValorDigitosConcat(a: string, b: string)
    requires SoloDigitos(a) && SoloDigitos(b)
    ensures SoloDigitos(a + b)
    ensures ValorDigitos(a + b) == ValorDigitos(a) * Pot10(|b|) + ValorDigitos(b)
    decreases |b|
  {
    if |b| == 0 {
      assert a + b == a;
    } else {
      var n := |b| - 1;
      var c := a + b;
      assert SoloDigitos(c);
      assert c[..|c| - 1] == a + b[..n];
      assert ValorUltimo(c) == ValorUltimo(b);
      ValorDigitosUltimo(c);
      ValorDigitosUltimo(b);
      ValorDigitosConcat(a, b[..n]);
      DesplazarCifra(ValorDigitos(a), Pot10(n), ValorDigitos(b[..n]), ValorUltimo(b));
    }
  }

  /** Appending a digit to a number shifts both of its parts one place. */
  lemma DesplazarCifra(va: nat, p: nat, vb: nat, d: nat)
    ensures 10 * (va * p + vb) + d == va * (10 * p) + (10 * vb + d)
  {
  }

  /** Runs of digits of the same length and value are the same text. */
  lemma {:induction false} DigitosIguales(a: string, b: string)
    requires |a| == |b| && SoloDigitos(a) && SoloDigitos(b)
    requires ValorDigitos(a) == ValorDigitos(b)
    ensures a == b
    decreases |a|
  {
    if |a| > 0 {
      var n := |a| - 1;
      var da := (a[n] as int) - ('0' as int);
      var db := (b[n] as int) - ('0' as int);
      assert da == db && ValorDigitos(a[..n]) == ValorDigitos(b[..n]) by {
        assert ValorDigitos(a) == 10 * ValorDigitos(a[..n]) + da;
        assert ValorDigitos(b) == 10 * ValorDigitos(b[..n]) + db;
      }
      DigitosIguales(a[..n], b[..n]);
      assert a == a[..n] + [a[n]] && b == b[..n] + [b[n]];
    }
  }

  /** For runs of digits of the same length, the smaller number is the
      smaller text: fixed-width numbers sort as strings in numeric order. */
  lemma {:induction false} DigitosMenor(a: string, b: string)
    requires |a| == |b| && SoloDigitos(a) && SoloDigitos(b)
    requires ValorDigitos(a) < ValorDigitos(b)
    ensures LexMenor(a, b)
    decreases |a|
  {
    var n := |a| - 1;
    var a1 := a[..n];
    var b1 := b[..n];
    assert a == a1 + [a[n]] && b == b1 + [b[n]];
    var da := (a[n] as int) - ('0' as int);
    var db := (b[n] as int) - ('0' as int);
    assert ValorDigitos(a) == 10 * ValorDigitos(a1) + da;
    assert ValorDigitos(b) == 10 * ValorDigitos(b1) + db;
    if ValorDigitos(a1) < ValorDigitos(b1) {
      DigitosMenor(a1, b1);
      LexMenorConcat(a1, [a[n]], b1, [b[n]]);
    } else {
      assert ValorDigitos(a1) == ValorDigitos(b1);
      DigitosIguales(a1, b1);
      LexMenorPrefijoComun(a1, [a[n]], [b[n]]);
    }
  }

  /** "Not less than" is transitive too. */
  lemma NoMenorTransitivo(x: string, y: string, z: string)
    requires !LexMenor(x, y) && !LexMenor(y, z)
    ensures !LexMenor(x, z)
  {
    if x != y && y != z {
      LexMenorTotal(x, y);
      LexMenorTotal(y, z);
      LexMenorTransitivo(z, y, x);
      LexMenorAsimetrico(z, x);
    }
  }

  /** Strictly increasing in Python's string order (so also duplicate-free). */
  ghost predicate Ordenada(s: seq<string>) {
    forall i, j :: 0 <= i < j < |s| ==> LexMenor(s[i], s[j])
  }
}
