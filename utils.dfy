/**
 * The string helpers of egg-ts-helper's `utils.js` that turn file paths into
 * property names, module names and import lines, the `{{ n }}` template
 * helper, and the filter `loadFiles` applies to a glob result.
 */
module Utils {
  import opened JsText

  // ---------------------------------------------------------------------
  // formatProp: /[._-][a-z]/gi replaced by the upper-cased letter

  predicate IsDelimiter(c: char) { c == '.' || c == '_' || c == '-' }

  /** A match of `/[._-][a-z]/i` starts at `i`: a delimiter, then an ASCII letter. */
  predicate MatchAt(s: string, i: int)
  {
    0 <= i && i + 1 < |s| && IsDelimiter(s[i]) && IsAsciiLetter(s[i + 1])
  }

  predicate NoMatch(s: string)
  {
    forall i :: 0 <= i < |s| ==> !MatchAt(s, i)
  }

  /**
   * `formatProp(prop)`: scanning left to right without overlap, every
   * delimiter followed by a letter is dropped and the letter upper-cased;
   * every other character is kept in place.
   */
  function FormatProp(prop: string): (r: string)
    ensures |r| <= |prop|
    ensures r == [] <==> prop == []
    decreases |prop|
  {
    if MatchAt(prop, 0) then [ToUpper(prop[1])] + FormatProp(prop[2..])
    else if prop == [] then []
    else [prop[0]] + FormatProp(prop[1..])
  }

  /** A string without a match is left as it is. */
  lemma {:induction false} FormatPropKeepsUnmatched(s: string)
    requires NoMatch(s)
    ensures FormatProp(s) == s
  {
    if s != [] {
      assert !MatchAt(s, 0);
      assert NoMatch(s[1..]) by {
        forall i | 0 <= i < |s[1..]| ensures !MatchAt(s[1..], i) {
          assert !MatchAt(s, i + 1);
        }
      }
      FormatPropKeepsUnmatched(s[1..]);
    }
  }

  /** A string with a match gets strictly shorter. */
  lemma {:induction false} FormatPropShortens(s: string, i: int)
    requires MatchAt(s, i)
    ensures |FormatProp(s)| < |s|
  {
    if !MatchAt(s, 0) {
      assert MatchAt(s[1..], i - 1);
      FormatPropShortens(s[1..], i - 1);
    }
  }

  /** formatProp changes its argument exactly when the argument holds a match. */
  lemma FormatPropFixedPoint(s: string)
    ensures FormatProp(s) == s <==> NoMatch(s)
  {
    if NoMatch(s) {
      FormatPropKeepsUnmatched(s);
    } else {
      var i :| 0 <= i < |s| && MatchAt(s, i);
      FormatPropShortens(s, i);
    }
  }

  /**
   * What a match becomes: a delimiter followed by a letter is replaced by
   * that letter upper-cased, wherever it sits, and the text on either side
   * is formatted as if on its own.
   */
  lemma FormatPropSplice(a: string, d: char, l: char, b: string)
    requires IsDelimiter(d) && IsAsciiLetter(l)
    ensures FormatProp(a + [d, l] + b) == FormatProp(a) + [ToUpper(l)] + FormatProp(b)
  {
    var m := [d, l] + b;
    assert a + [d, l] + b == a + m;
    FormatPropAppend(a, m);
    assert MatchAt(m, 0);
    assert m[2..] == b;
    assert FormatProp(m) == [ToUpper(l)] + FormatProp(b);
    AppendAssoc(FormatProp(a), [ToUpper(l)], FormatProp(b));
  }

  /**
   * formatProp works piecewise: it distributes over a concatenation unless
   * the cut separates a delimiter from the letter after it.
   */
  lemma {:induction false} FormatPropAppend(a: string, b: string)
    requires !(a != [] && b != [] && IsDelimiter(a[|a| - 1]) && IsAsciiLetter(b[0]))
    ensures FormatProp(a + b) == FormatProp(a) + FormatProp(b)
  {
    var ab := a + b;
    if a == [] {
      assert ab == b;
    } else if MatchAt(a, 0) {
      assert ab[0] == a[0] && ab[1] == a[1];
      assert MatchAt(ab, 0);
      assert ab[2..] == a[2..] + b;
      calc {
        FormatProp(ab);
        [ToUpper(a[1])] + FormatProp(a[2..] + b);
        { FormatPropAppend(a[2..], b); }
        [ToUpper(a[1])] + (FormatProp(a[2..]) + FormatProp(b));
        { AppendAssoc([ToUpper(a[1])], FormatProp(a[2..]), FormatProp(b)); }
        ([ToUpper(a[1])] + FormatProp(a[2..])) + FormatProp(b);
      }
    } else {
      assert ab[0] == a[0];
      assert |a| > 1 ==> ab[1] == a[1];
      assert !MatchAt(ab, 0);
      assert ab[1..] == a[1..] + b;
      calc {
        FormatProp(ab);
        [a[0]] + FormatProp(a[1..] + b);
        { FormatPropAppend(a[1..], b); }
        [a[0]] + (FormatProp(a[1..]) + FormatProp(b));
        { AppendAssoc([a[0]], FormatProp(a[1..]), FormatProp(b)); }
        ([a[0]] + FormatProp(a[1..])) + FormatProp(b);
      }
    }
  }

  /** Two delimiters and then a letter, starting at `i`. */
  predicate DelimiterRunAt(s: string, i: int)
  {
    0 <= i && i + 2 < |s| && IsDelimiter(s[i]) && IsDelimiter(s[i + 1]) && IsAsciiLetter(s[i + 2])
  }

  predicate NoDelimiterRun(s: string)
  {
    forall i :: 0 <= i < |s| ==> !DelimiterRunAt(s, i)
  }

  /** Without a delimiter run, the output of formatProp holds no match. */
  lemma {:induction false} FormatPropLeavesNoMatch(s: string)
    requires NoDelimiterRun(s)
    ensures NoMatch(FormatProp(s))
  {
    var r := FormatProp(s);
    if s == [] {
    } else if MatchAt(s, 0) {
      var t := s[2..];
      assert NoDelimiterRun(t) by {
        forall i | 0 <= i < |t| ensures !DelimiterRunAt(t, i) { assert !DelimiterRunAt(s, i + 2); }
      }
      FormatPropLeavesNoMatch(t);
      assert r == [ToUpper(s[1])] + FormatProp(t);
      forall i | 0 <= i < |r| ensures !MatchAt(r, i) {
        if i > 0 { assert !MatchAt(FormatProp(t), i - 1); }
      }
    } else {
      var t := s[1..];
      assert NoDelimiterRun(t) by {
        forall i | 0 <= i < |t| ensures !DelimiterRunAt(t, i) { assert !DelimiterRunAt(s, i + 1); }
      }
      FormatPropLeavesNoMatch(t);
      assert r == [s[0]] + FormatProp(t);
      forall i | 0 <= i < |r| ensures !MatchAt(r, i) {
        if i > 0 {
          assert !MatchAt(FormatProp(t), i - 1);
        } else if |r| > 1 && IsDelimiter(s[0]) {
          assert !DelimiterRunAt(s, 0);
          assert !MatchAt(t, 0);
          assert FormatProp(t)[0] == t[0];
        }
      }
    }
  }

  /** With a delimiter run, the output of formatProp holds a match at `j`. */
  lemma {:induction false} FormatPropLeavesMatch(s: string, i: int) returns (j: int)
    requires DelimiterRunAt(s, i)
    ensures MatchAt(FormatProp(s), j)
  {
    var r := FormatProp(s);
    if MatchAt(s, 0) {
      var t := s[2..];
      assert DelimiterRunAt(t, i - 2);
      var k := FormatPropLeavesMatch(t, i - 2);
      assert r == [ToUpper(s[1])] + FormatProp(t);
      j := k + 1;
    } else {
      var t := s[1..];
      assert r == [s[0]] + FormatProp(t);
      if i == 0 {
        assert MatchAt(t, 0);
        assert FormatProp(t)[0] == ToUpper(t[1]);
        j := 0;
      } else {
        assert DelimiterRunAt(t, i - 1);
        var k := FormatPropLeavesMatch(t, i - 1);
        j := k + 1;
      }
    }
  }

  /**
   * Applying formatProp a second time changes nothing exactly when the input
   * has no two delimiters in a row before a letter (`a.-b` becomes `a.B` and
   * then `aB`).
   */
  lemma FormatPropIdempotent(s: string)
    ensures FormatProp(FormatProp(s)) == FormatProp(s) <==> NoDelimiterRun(s)
  {
    FormatPropFixedPoint(FormatProp(s));
    if NoDelimiterRun(s) {
      FormatPropLeavesNoMatch(s);
    } else {
      var i :| 0 <= i < |s| && DelimiterRunAt(s, i);
      var j := FormatPropLeavesMatch(s, i);
    }
  }

  // ---------------------------------------------------------------------
  // camelProp

  /**
   * The `caseStyle` argument: 'lower', 'upper', a function, or anything
   * else, which the `switch` treats like 'camel'.
   */
  datatype CaseStyle = Lower | Upper | Camel | Custom(apply: string -> string)

  /** Upper- or lower-cases `c` as the style asks; 'camel' leaves it. */
  function CaseFirst(c: char, caseStyle: CaseStyle): char
  {
    match caseStyle
    case Lower => ToLower(c)
    case Upper => ToUpper(c)
    case _ => c
  }

  /**
   * `camelProp(property, caseStyle)`. A function style replaces the whole
   * computation. Otherwise the property is formatted and only its first
   * character is re-cased; an empty property has no first character, which
   * throws a TypeError for 'lower' and 'upper' and yields the text
   * "undefined" for every other style.
   */
  function CamelProp(property: string, caseStyle: CaseStyle): (r: Result<string>)
    ensures r.Err? <==> property == [] && (caseStyle.Lower? || caseStyle.Upper?)
    ensures caseStyle.Custom? ==> r == Ok(caseStyle.apply(property))
    ensures caseStyle.Camel? ==> r == Ok(if property == [] then "undefined" else FormatProp(property))
    ensures r.Ok? && property != [] && !caseStyle.Custom? ==>
              |r.value| == |FormatProp(property)| && r.value[1..] == FormatProp(property)[1..]
    ensures caseStyle.Upper? && r.Ok? ==> r.value[0] == ToUpper(FormatProp(property)[0]) && !IsLower(r.value[0])
    ensures caseStyle.Lower? && r.Ok? ==> r.value[0] == ToLower(FormatProp(property)[0]) && !IsUpper(r.value[0])
  {
    match caseStyle
    case Custom(apply) => Ok(apply(property))
    case _ =>
      var formatted := FormatProp(property);
      if formatted == [] then
        (if caseStyle.Camel? then Ok("undefined") else Err(TypeError))
      else
        Ok([CaseFirst(formatted[0], caseStyle)] + formatted[1..])
  }

  /**
   * Re-applying a built-in case style to its own output gives the same
   * output, provided the property has no delimiter run (otherwise the
   * formatProp inside does not settle in one pass).
   */
  lemma CamelPropIdempotent(property: string, caseStyle: CaseStyle)
    requires !caseStyle.Custom? && property != [] && NoDelimiterRun(property)
    ensures CamelProp(property, caseStyle).Ok?
    ensures CamelProp(CamelProp(property, caseStyle).value, caseStyle) == CamelProp(property, caseStyle)
  {
    var q := FormatProp(property);
    FormatPropLeavesNoMatch(property);
    var r := CamelProp(property, caseStyle).value;
    assert r == [CaseFirst(q[0], caseStyle)] + q[1..];
    assert NoMatch(r) by {
      forall i | 0 <= i < |r| ensures !MatchAt(r, i) {
        assert !MatchAt(q, i);
      }
    }
    FormatPropKeepsUnmatched(r);
  }

  /** The delimiter run makes the mapping settle only on the second pass. */
  lemma CamelPropNotIdempotentExample()
    ensures CamelProp("a.-b", Camel) == Ok("a.B")
    ensures CamelProp("a.B", Camel) == Ok("aB")
  {
    var s1, s2, s3 := "a.-b", ".-b", "-b";
    assert s1[1..] == s2 && s2[1..] == s3 && s3[2..] == [];
    assert !MatchAt(s1, 0) && !MatchAt(s2, 0) && MatchAt(s3, 0);
    assert FormatProp(s3) == "B";
    assert FormatProp(s2) == "." + FormatProp(s3);
    assert FormatProp(s1) == "a" + FormatProp(s2);
    assert FormatProp(s1) == "a.B";
    assert s1 != [];
    assert CamelProp(s1, Camel) == Ok(FormatProp(s1));
    var t1, t2 := "a.B", ".B";
    assert t1[1..] == t2 && t2[2..] == [];
    assert !MatchAt(t1, 0) && MatchAt(t2, 0);
    assert FormatProp(t2) == "B";
    assert FormatProp(t1) == "a" + FormatProp(t2);
    assert FormatProp(t1) == "aB";
    assert CamelProp(t1, Camel) == Ok(FormatProp(t1));
  }

  // ---------------------------------------------------------------------
  // getModuleObjByPath

  /** `s.lastIndexOf(c)`: the last position of `c`, or -1. */
  function LastIndexOf(s: string, c: char): (k: int)
    ensures -1 <= k < |s|
    ensures k >= 0 ==> s[k] == c
    ensures forall j :: k < j < |s| ==> s[j] != c
  {
    if s == [] then -1
    else if s[|s| - 1] == c then |s| - 1
    else LastIndexOf(s[..|s| - 1], c)
  }

  /** The path up to its last `.`; with no `.` the end index is -1, which `substring` treats as 0. */
  function Stem(f: string): string
  {
    var k := LastIndexOf(f, '.');
    if k < 0 then [] else f[..k]
  }

  /** `s.split(sep)` for a one-character separator. */
  function Split(s: string, sep: char): (parts: seq<string>)
    ensures |parts| >= 1
  {
    if s == [] then [[]]
    else
      var rest := Split(s[1..], sep);
      if s[0] == sep then [[]] + rest else [[s[0]] + rest[0]] + rest[1..]
  }

  /** `parts.join(sep)` for a one-character separator. */
  function Join(parts: seq<string>, sep: char): string
  {
    if parts == [] then []
    else if |parts| == 1 then parts[0]
    else parts[0] + [sep] + Join(parts[1..], sep)
  }

  predicate NoSeparator(parts: seq<string>, sep: char)
  {
    forall i :: 0 <= i < |parts| ==> sep !in parts[i]
  }

  /** Joining the pieces of a split gives back the string. */
  lemma {:induction false} SplitThenJoin(s: string, sep: char)
    ensures Join(Split(s, sep), sep) == s
    ensures NoSeparator(Split(s, sep), sep)
  {
    if s != [] {
      var rest := Split(s[1..], sep);
      SplitThenJoin(s[1..], sep);
      if s[0] == sep {
        assert Split(s, sep) == [[]] + rest;
        assert ([[]] + rest)[1..] == rest;
      } else {
        var parts := [[s[0]] + rest[0]] + rest[1..];
        assert Split(s, sep) == parts;
        if |rest| > 1 {
          assert parts[1..] == rest[1..];
          assert Join(rest, sep) == rest[0] + [sep] + Join(rest[1..], sep);
        }
      }
    }
  }

  /** Splitting a join of separator-free pieces gives back the pieces. */
  lemma {:induction false} JoinThenSplit(parts: seq<string>, sep: char)
    requires |parts| >= 1 && NoSeparator(parts, sep)
    ensures Split(Join(parts, sep), sep) == parts
  {
    if |parts| == 1 {
      SplitNoSeparator(parts[0], sep);
    } else {
      JoinThenSplit(parts[1..], sep);
      SplitPrefix(parts[0], Join(parts[1..], sep), sep);
      assert [parts[0]] + parts[1..] == parts;
    }
  }

  lemma {:induction false} SplitNoSeparator(s: string, sep: char)
    requires sep !in s
    ensures Split(s, sep) == [s]
  {
    if s != [] {
      SplitNoSeparator(s[1..], sep);
      assert [s[0]] + s[1..] == s;
    }
  }

  /** A separator-free piece followed by the separator splits off first. */
  lemma {:induction false} SplitPrefix(a: string, b: string, sep: char)
    requires sep !in a
    ensures Split(a + [sep] + b, sep) == [a] + Split(b, sep)
  {
    if a == [] {
      assert a + [sep] + b == [sep] + b;
      assert ([sep] + b)[1..] == b;
    } else {
      var s := a + [sep] + b;
      assert s[1..] == a[1..] + [sep] + b;
      SplitPrefix(a[1..], b, sep);
      assert [a[0]] + a[1..] == a;
    }
  }

  /** The names camelProp(prop, 'upper') gives each prop, or the first failure. */
  function UpperNames(props: seq<string>): (r: Result<seq<string>>)
    ensures r.Ok? <==> forall i :: 0 <= i < |props| ==> props[i] != []
    ensures r.Ok? ==> |r.value| == |props|
    ensures r.Ok? ==> forall i :: 0 <= i < |props| ==> Ok(r.value[i]) == CamelProp(props[i], Upper)
  {
    if props == [] then Ok([])
    else
      var first :- CamelProp(props[0], Upper);
      var rest :- UpperNames(props[1..]);
      Ok([first] + rest)
  }

  datatype ModuleObj = ModuleObj(props: seq<string>, moduleName: string)

  /**
   * `getModuleObjByPath(f)`: the text before the last `.`, split on `/`, and
   * the PascalCase module name made of those segments. A segment that is
   * empty (a path without a `.`, or with a leading, trailing or doubled `/`)
   * makes camelProp throw.
   */
  function GetModuleObjByPath(f: string): (r: Result<ModuleObj>)
    ensures r.Ok? <==> forall i :: 0 <= i < |Split(Stem(f), '/')| ==> Split(Stem(f), '/')[i] != []
    ensures '.' !in f ==> r.Err?
    ensures r.Ok? ==> Join(r.value.props, '/') == Stem(f) && NoSeparator(r.value.props, '/')
    ensures r.Ok? ==> |r.value.props| >= 1 && forall i :: 0 <= i < |r.value.props| ==> r.value.props[i] != []
    ensures r.Ok? ==> exists names :: UpperNames(r.value.props) == Ok(names) && r.value.moduleName == Concat(names)
  {
    var props := Split(Stem(f), '/');
    SplitThenJoin(Stem(f), '/');
    var names :- UpperNames(props);
    Ok(ModuleObj(props, Concat(names)))
  }

  // ---------------------------------------------------------------------
  // getImportStr

  /** The `path` module functions the helpers call, left abstract. */
  datatype PathLib = PathLib(
    resolve: (string, string) -> string,
    relative: (string, string) -> string,
    join: (string, string) -> string,
    extname: string -> string)

  /** Every back slash becomes a slash, as the global replaces in the import path and the watch glob do. */
  function NormalizeSeparators(p: string): (r: string)
    ensures |r| == |p|
    ensures '\\' !in r
    ensures forall i :: 0 <= i < |p| ==> r[i] == (if p[i] == '\\' then '/' else p[i])
  {
    if p == [] then [] else [if p[0] == '\\' then '/' else p[0]] + NormalizeSeparators(p[1..])
  }

  /** The module specifier: the normalised relative path minus the extension's length. */
  function ImportPath(path: PathLib, from: string, to: string): (p: string)
    ensures '\\' !in p
  {
    var rel := NormalizeSeparators(path.relative(from, to));
    var ext := path.extname(to);
    rel[..if |rel| >= |ext| then |rel| - |ext| else 0]
  }

  /** `getImportStr(from, to, moduleName, importStar)`. */
  function GetImportStr(path: PathLib, from: string, to: string, moduleName: string, importStar: bool): (r: string)
    ensures |r| > 8 && r[..7] == "import " && r[|r| - 1] == ';'
  {
    var isTS := path.extname(to) == ".ts";
    var importPath := ImportPath(path, from, to);
    var starStr := if isTS && importStar then "* as " else "";
    var fromStr := if isTS then "from '" + importPath + "'" else "= require('" + importPath + "')";
    "import " + starStr + moduleName + " " + fromStr + ";"
  }

  /** What an import line says: namespace import or not, the name, the specifier, ES or CommonJS form. */
  datatype ImportDecl = ImportDecl(star: bool, name: string, specifier: string, esModule: bool)

  function IndexOf(s: string, c: char): (k: int)
    ensures -1 <= k < |s|
    ensures k >= 0 ==> s[k] == c
    ensures forall j :: 0 <= j < |s| && (k < 0 || j < k) ==> s[j] != c
  {
    if s == [] then -1
    else if s[0] == c then 0
    else var k := IndexOf(s[1..], c); if k < 0 then -1 else k + 1
  }

  /** Reads an import line of the two shapes getImportStr writes. */
  function ParseImport(line: string): Option<ImportDecl>
  {
    if !StartsWith(line, "import ") then None
    else
      var rest := line[7..];
      if StartsWith(rest, "* as ") then ParseBinding(true, rest[5..]) else ParseBinding(false, rest)
  }

  /** The name up to the first space, then the source clause. */
  function ParseBinding(star: bool, body: string): Option<ImportDecl>
  {
    var space := IndexOf(body, ' ');
    if space < 0 then None else ParseSource(star, body[..space], body[space + 1..])
  }

  /** `from '<p>';` or `= require('<p>');`. */
  function ParseSource(star: bool, name: string, tail: string): Option<ImportDecl>
  {
    if |tail| >= 8 && StartsWith(tail, "from '") && EndsWith(tail, "';") then
      Some(ImportDecl(star, name, tail[6..|tail| - 2], true))
    else if |tail| >= 14 && StartsWith(tail, "= require('") && EndsWith(tail, "');") then
      Some(ImportDecl(star, name, tail[11..|tail| - 3], false))
    else None
  }

  /** The source clause getImportStr writes for a target, ES or CommonJS. */
  function SourceClause(isTS: bool, importPath: string): string
  {
    if isTS then "from '" + importPath + "';" else "= require('" + importPath + "');"
  }

  lemma ParseSourceClause(star: bool, name: string, isTS: bool, importPath: string)
    ensures ParseSource(star, name, SourceClause(isTS, importPath)) == Some(ImportDecl(star, name, importPath, isTS))
  {
    var tail := SourceClause(isTS, importPath);
    if isTS {
      assert tail == "from '" + importPath + "';";
      assert tail[..6] == "from '";
      assert tail[|tail| - 2..] == "';";
      assert tail[6..|tail| - 2] == importPath;
    } else {
      assert tail == "= require('" + importPath + "');";
      assert tail[0] == '=';
      assert !StartsWith(tail, "from '");
      assert tail[..11] == "= require('";
      assert tail[|tail| - 3..] == "');";
      assert tail[11..|tail| - 3] == importPath;
    }
  }

  lemma ParseBindingOf(star: bool, name: string, tail: string)
    requires ' ' !in name
    ensures ParseBinding(star, name + " " + tail) == ParseSource(star, name, tail)
  {
    var body := name + " " + tail;
    assert body[|name|] == ' ';
    assert forall j :: 0 <= j < |name| ==> body[j] == name[j];
    IndexOfFirst(body, ' ', |name|);
    assert body[..|name|] == name;
    assert body[|name| + 1..] == tail;
  }

  /** A binding without spaces, followed by a source clause, does not start like a namespace import. */
  lemma NotNamespaceImport(name: string, isTS: bool, importPath: string)
    requires ' ' !in name
    ensures !StartsWith(name + " " + SourceClause(isTS, importPath), "* as ")
  {
    var tail := SourceClause(isTS, importPath);
    var rest := name + " " + tail;
    assert tail[0] == 'f' || tail[0] == '=';
    if |name| >= 2 {
      assert rest[1] == name[1] && name[1] != ' ';
    } else if |name| == 1 {
      assert rest[2] == tail[0];
    } else {
      assert rest[0] == ' ';
    }
  }

  /** ParseImport peels off `import ` and, when present, `* as `. */
  lemma ParseImportOf(star: bool, body: string)
    requires !star ==> !StartsWith(body, "* as ")
    ensures ParseImport("import " + (if star then "* as " else "") + body) == ParseBinding(star, body)
  {
    var starStr := if star then "* as " else "";
    var line := "import " + starStr + body;
    assert line[..7] == "import ";
    var rest := line[7..];
    assert rest == starStr + body;
    if star {
      assert rest[..5] == "* as ";
      assert rest[5..] == body;
    }
  }

  /**
   * An import line reads back as what was asked for: a `.ts` target gives
   * an ES import (a namespace import only when `importStar` is set), any
   * other extension a `require` import, and the specifier is the relative
   * path without the extension.
   */
  lemma GetImportStrRoundTrip(path: PathLib, from: string, to: string, moduleName: string, importStar: bool)
    requires ' ' !in moduleName
    ensures var isTS := path.extname(to) == ".ts";
            ParseImport(GetImportStr(path, from, to, moduleName, importStar))
            == Some(ImportDecl(isTS && importStar, moduleName, ImportPath(path, from, to), isTS))
  {
    var isTS := path.extname(to) == ".ts";
    var importPath := ImportPath(path, from, to);
    var star := isTS && importStar;
    var tail := SourceClause(isTS, importPath);
    var body := moduleName + " " + tail;
    assert GetImportStr(path, from, to, moduleName, importStar)
        == "import " + (if star then "* as " else "") + body;
    NotNamespaceImport(moduleName, isTS, importPath);
    ParseImportOf(star, body);
    ParseBindingOf(star, moduleName, tail);
    ParseSourceClause(star, moduleName, isTS, importPath);
  }

  lemma IndexOfFirst(s: string, c: char, k: int)
    requires 0 <= k < |s| && s[k] == c
    requires forall j :: 0 <= j < k ==> s[j] != c
    ensures IndexOf(s, c) == k
  {
    var r := IndexOf(s, c);
    assert r >= 0;
    assert !(r < k);
  }

  // ---------------------------------------------------------------------
  // strToFn: {{ n }} templates

  /** The `interfaceHandle` option: absent, a template string, or a function. */
  datatype InterfaceHandle = NoHandle | Template(text: string) | Callback(apply: seq<string> -> string)

  /** The first position at or after `i` where `s` holds no JavaScript white space. */
  function SpacesEnd(s: string, i: nat): (j: nat)
    requires i <= |s|
    ensures i <= j <= |s|
    ensures forall k :: i <= k < j ==> IsJsSpace(s[k])
    ensures j < |s| ==> !IsJsSpace(s[j])
    decreases |s| - i
  {
    if i < |s| && IsJsSpace(s[i]) then SpacesEnd(s, i + 1) else i
  }

  /** The first position at or after `i` where `s` holds no decimal digit. */
  function DigitsEnd(s: string, i: nat): (j: nat)
    requires i <= |s|
    ensures i <= j <= |s|
    ensures forall k :: i <= k < j ==> IsDigit(s[k])
    ensures j < |s| ==> !IsDigit(s[j])
    decreases |s| - i
  {
    if i < |s| && IsDigit(s[i]) then DigitsEnd(s, i + 1) else i
  }

  /** A match of `/{{\s*(\d+)\s*}}/`: where it ends and the digits it captured. */
  datatype Placeholder = Placeholder(end: nat, index: string)

  /**
   * The match of the placeholder pattern that starts at position `i` of `s`,
   * if any. The classes `\s`, `\d` and the braces are disjoint, so the greedy
   * runs below are the only way the pattern can match there.
   */
  function PlaceholderAt(s: string, i: nat): (m: Option<Placeholder>)
    requires i <= |s|
    ensures m.Some? ==> i + 5 <= m.value.end <= |s| && s[i] == '{' && s[m.value.end - 1] == '}'
  {
    if i + 1 < |s| && s[i] == '{' && s[i + 1] == '{' then
      var a := SpacesEnd(s, i + 2);
      var d := DigitsEnd(s, a);
      var b := SpacesEnd(s, d);
      if a < d && b + 1 < |s| && s[b] == '}' && s[b + 1] == '}' then Some(Placeholder(b + 2, s[a..d])) else None
    else None
  }

  /**
   * `args[index]` converted to a string: an index key that is not canonical
   * (`01`) or past the end of `args` reads `undefined`.
   */
  function ArgAt(args: seq<string>, index: string): string
  {
    if IsArrayIndex(index) && IndexValue(index) < |args| then args[IndexValue(index)] else "undefined"
  }

  /** The global replacement of the placeholder pattern, scanning `t` from position `i`. */
  function SubstituteFrom(t: string, i: nat, args: seq<string>): string
    requires i <= |t|
    decreases |t| - i
  {
    if i == |t| then []
    else match PlaceholderAt(t, i)
      case Some(m) => ArgAt(args, m.index) + SubstituteFrom(t, m.end, args)
      case None => [t[i]] + SubstituteFrom(t, i + 1, args)
  }

  /** Every placeholder of the template replaced by the argument its digits name. */
  function Substitute(template: string, args: seq<string>): (r: string)
    ensures '{' !in template ==> r == template
  {
    SubstitutePlain(template, args);
    SubstituteFrom(template, 0, args)
  }

  /**
   * `strToFn(fn)`: a string becomes the function that substitutes its
   * arguments into it; anything else is returned as it is.
   */
  function StrToFn(handle: InterfaceHandle): (r: Option<seq<string> -> string>)
    ensures r.None? <==> handle.NoHandle?
    ensures handle.Template? ==> r.Some? && forall args :: r.value(args) == Substitute(handle.text, args)
    ensures handle.Callback? ==> r == Some(handle.apply)
  {
    match handle
    case NoHandle => None
    case Template(text) => Some((args: seq<string>) => Substitute(text, args))
    case Callback(apply) => Some(apply)
  }

  /** A character other than `{` is copied and the scan moves on by one. */
  lemma SubstituteCopies(t: string, i: nat, args: seq<string>)
    requires i < |t| && t[i] != '{'
    ensures SubstituteFrom(t, i, args) == [t[i]] + SubstituteFrom(t, i + 1, args)
  {
    assert PlaceholderAt(t, i) == None;
  }

  /** Text from `i` to `j` without an opening brace is copied through unchanged. */
  lemma {:induction false} SubstituteLiteralRun(t: string, i: nat, j: nat, args: seq<string>)
    requires i <= j <= |t|
    requires forall k :: i <= k < j ==> t[k] != '{'
    ensures SubstituteFrom(t, i, args) == t[i..j] + SubstituteFrom(t, j, args)
    decreases j - i
  {
    if i < j {
      SubstituteLiteralRun(t, i + 1, j, args);
      SubstituteLiteralStep(t, i, j, args, SubstituteFrom(t, j, args));
    }
  }

  /** One more copied character in front of a copied run. */
  lemma SubstituteLiteralStep(t: string, i: nat, j: nat, args: seq<string>, rest: string)
    requires i < j <= |t| && t[i] != '{'
    requires SubstituteFrom(t, i + 1, args) == t[i + 1..j] + rest
    ensures SubstituteFrom(t, i, args) == t[i..j] + rest
  {
    SubstituteCopies(t, i, args);
    assert t[i..j] == [t[i]] + t[i + 1..j];
    AppendAssoc([t[i]], t[i + 1..j], rest);
  }

  /** A template without an opening brace is copied through whole. */
  lemma SubstitutePlain(template: string, args: seq<string>)
    ensures '{' !in template ==> SubstituteFrom(template, 0, args) == template
  {
    if '{' !in template {
      SubstituteLiteralRun(template, 0, |template|, args);
      assert template[0..|template|] == template;
    }
  }

  /**
   * A placeholder `{{ n }}` from `i` to `b + 2`, with white space from
   * `i + 2` to `a` and from `d` to `b` around the digits `t[a..d]`, is
   * replaced by the argument it names, and the scan goes on after it.
   */
  lemma SubstitutePlaceholder(t: string, i: nat, a: nat, d: nat, b: nat, args: seq<string>)
    requires i + 2 <= a < d <= b && b + 2 <= |t|
    requires t[i] == '{' && t[i + 1] == '{' && t[b] == '}' && t[b + 1] == '}'
    requires forall k :: i + 2 <= k < a ==> IsJsSpace(t[k])
    requires forall k :: a <= k < d ==> IsDigit(t[k])
    requires forall k :: d <= k < b ==> IsJsSpace(t[k])
    ensures SubstituteFrom(t, i, args) == ArgAt(args, t[a..d]) + SubstituteFrom(t, b + 2, args)
  {
    PlaceholderFound(t, i, a, d, b);
    SubstituteAtMatch(t, i, b + 2, t[a..d], args);
  }

  /** The placeholder pattern matches at `i` with the parts laid out as given. */
  lemma PlaceholderFound(t: string, i: nat, a: nat, d: nat, b: nat)
    requires i + 2 <= a < d <= b && b + 2 <= |t|
    requires t[i] == '{' && t[i + 1] == '{' && t[b] == '}' && t[b + 1] == '}'
    requires forall k :: i + 2 <= k < a ==> IsJsSpace(t[k])
    requires forall k :: a <= k < d ==> IsDigit(t[k])
    requires forall k :: d <= k < b ==> IsJsSpace(t[k])
    ensures PlaceholderAt(t, i) == Some(Placeholder(b + 2, t[a..d]))
  {
    assert SpacesEnd(t, i + 2) == a by {
      assert !IsJsSpace(t[a]);
      SpacesEndIs(t, i + 2, a);
    }
    assert DigitsEnd(t, a) == d by {
      assert !IsDigit(t[d]);
      DigitsEndIs(t, a, d);
    }
    assert SpacesEnd(t, d) == b by {
      assert !IsJsSpace(t[b]);
      SpacesEndIs(t, d, b);
    }
  }

  /** A white-space run from `i` that stops before a non-space at `j` ends at `j`. */
  lemma SpacesEndIs(s: string, i: nat, j: nat)
    requires i <= j < |s| && !IsJsSpace(s[j])
    requires forall k :: i <= k < j ==> IsJsSpace(s[k])
    ensures SpacesEnd(s, i) == j
  {
  }

  /** A digit run from `i` that stops before a non-digit at `j` ends at `j`. */
  lemma DigitsEndIs(s: string, i: nat, j: nat)
    requires i <= j < |s| && !IsDigit(s[j])
    requires forall k :: i <= k < j ==> IsDigit(s[k])
    ensures DigitsEnd(s, i) == j
  {
  }

  /** Where a placeholder matches, the scan emits its argument and resumes after it. */
  lemma SubstituteAtMatch(t: string, i: nat, end: nat, index: string, args: seq<string>)
    requires i < |t| && end <= |t| && PlaceholderAt(t, i) == Some(Placeholder(end, index))
    ensures SubstituteFrom(t, i, args) == ArgAt(args, index) + SubstituteFrom(t, end, args)
  {
  }

  /** `{{ 0 }}` at position `n` is replaced by the only argument. */
  lemma SubstituteFirstArgAt(t: string, n: nat, v: string)
    requires n + 7 <= |t| && t[n..n + 7] == "{{ 0 }}"
    ensures SubstituteFrom(t, n, [v]) == v + SubstituteFrom(t, n + 7, [v])
  {
    var w := t[n..n + 7];
    assert t[n] == w[0] == '{' && t[n + 1] == w[1] == '{' && t[n + 2] == w[2] == ' ';
    assert t[n + 3] == w[3] == '0' && t[n + 4] == w[4] == ' ';
    assert t[n + 5] == w[5] == '}' && t[n + 6] == w[6] == '}';
    SubstitutePlaceholder(t, n, n + 3, n + 4, n + 5, [v]);
    assert t[n + 3..n + 4] == "0";
    ArgZero(v);
  }

  /** Index `0` names the first argument. */
  lemma ArgZero(v: string)
    ensures ArgAt([v], "0") == v
  {
    assert DecimalValue("0") == DecimalValue("") * 10 + DigitValue('0');
  }

  /** A template with one placeholder `{{ 0 }}` puts the first argument in its place. */
  lemma SubstituteOnePlaceholder(p: string, q: string, v: string)
    requires '{' !in p && '{' !in q
    ensures Substitute(p + "{{ 0 }}" + q, [v]) == p + v + q
  {
    var t := p + "{{ 0 }}" + q;
    var n := |p|;
    var s1 := SubstituteFrom(t, n, [v]);
    var s2 := SubstituteFrom(t, n + 7, [v]);
    assert Substitute(t, [v]) == p + s1 by {
      SubstituteLiteralRun(t, 0, n, [v]);
      assert t[0..n] == p;
    }
    assert s1 == v + s2 by {
      assert t[n..n + 7] == "{{ 0 }}";
      SubstituteFirstArgAt(t, n, v);
    }
    assert s2 == q by {
      assert t[n + 7..|t|] == q;
      SubstituteLiteralRun(t, n + 7, |t|, [v]);
    }
    assert p + s1 == p + v + q by {
      AppendAssoc(p, v, q);
    }
  }

  /** The usual `interfaceHandle`: a leaf type wrapped in a generic. */
  lemma SubstituteWrapsLeaf(v: string)
    ensures Substitute("AutoInstanceType<typeof {{ 0 }}>", [v]) == "AutoInstanceType<typeof " + v + ">"
  {
    var p := "AutoInstanceType<typeof ";
    assert "AutoInstanceType<typeof {{ 0 }}>" == p + "{{ 0 }}" + ">";
    SubstituteOnePlaceholder(p, ">", v);
  }

  /** A non-canonical index such as `01` names no argument. */
  lemma SubstituteLeadingZero(v: string)
    ensures Substitute("{{01}}", [v, v]) == "undefined"
  {
    var t := "{{01}}";
    assert ArgAt([v, v], t[2..4]) == "undefined" by {
      assert t[2..4] == "01" && !IsArrayIndex("01");
    }
    assert SubstituteFrom(t, 0, [v, v]) == ArgAt([v, v], t[2..4]) + SubstituteFrom(t, 6, [v, v]) by {
      SubstitutePlaceholder(t, 0, 2, 4, 4, [v, v]);
    }
  }

  // ---------------------------------------------------------------------
  // loadFiles: the same-name filter

  /** `f` ends in `.js` and the `.ts` file of the same name is in `all`. */
  predicate ShadowedJs(f: string, all: seq<string>)
  {
    EndsWith(f, ".js") && f[..|f| - 2] + "ts" in all
  }

  /** The files of `fs` that are not a `.js` file whose `.ts` sibling is in `all`, in order. */
  function KeepFiles(fs: seq<string>, all: seq<string>): (r: seq<string>)
    ensures |r| <= |fs|
    ensures forall f :: f in r <==> f in fs && !ShadowedJs(f, all)
    ensures forall f :: multiset(r)[f] == if ShadowedJs(f, all) then 0 else multiset(fs)[f]
  {
    if fs == [] then []
    else
      assert fs == [fs[0]] + fs[1..];
      (if ShadowedJs(fs[0], all) then [] else [fs[0]]) + KeepFiles(fs[1..], all)
  }

  /** The filter `loadFiles` applies to the glob result. */
  function LoadFilesFilter(fileList: seq<string>): (r: seq<string>)
    ensures forall f :: f in r <==> f in fileList && !ShadowedJs(f, fileList)
    ensures IsSubsequence(r, fileList)
  {
    KeepFilesInOrder(fileList, fileList);
    KeepFiles(fileList, fileList)
  }

  /** `a` is `b` with some entries removed, the rest in their order. */
  predicate IsSubsequence(a: seq<string>, b: seq<string>)
    decreases |b|
  {
    if a == [] then true
    else if b == [] then false
    else if a[0] == b[0] then IsSubsequence(a[1..], b[1..])
    else IsSubsequence(a, b[1..])
  }

  lemma {:induction false} KeepFilesInOrder(fs: seq<string>, all: seq<string>)
    ensures IsSubsequence(KeepFiles(fs, all), fs)
  {
    if fs != [] {
      KeepFilesInOrder(fs[1..], all);
      var rest := KeepFiles(fs[1..], all);
      if !ShadowedJs(fs[0], all) {
        assert KeepFiles(fs, all) == [fs[0]] + rest;
        assert ([fs[0]] + rest)[1..] == rest;
      } else {
        assert KeepFiles(fs, all) == rest;
        SubsequenceDropFront(rest, fs);
      }
    }
  }

  lemma SubsequenceDropFront(a: seq<string>, b: seq<string>)
    requires b != [] && IsSubsequence(a, b[1..])
    ensures IsSubsequence(a, b)
    decreases |b|
  {
    if a != [] && a[0] == b[0] {
      if |b| > 1 {
        assert IsSubsequence(a[1..], b[2..]) || IsSubsequence(a, b[2..]);
        if a[0] == b[1] {
          SubsequenceTail(a, b[1..]);
        } else {
          SubsequenceTail(a, b[1..]);
        }
      }
    }
  }

  /** Dropping the first entry of a subsequence keeps it a subsequence of the tail. */
  lemma SubsequenceTail(a: seq<string>, b: seq<string>)
    requires a != [] && IsSubsequence(a, b)
    ensures IsSubsequence(a[1..], b[1..])
    decreases |b|
  {
    if a[0] != b[0] {
      SubsequenceTail(a, b[1..]);
      SubsequenceDropFront(a[1..], b[1..]);
    }
  }

  /**
   * The `loadFiles` filter keeps the list's order and removes exactly the
   * `x.js` entries whose `x.ts` is listed; running it again removes nothing.
   */
  lemma LoadFilesFilterSpec(fileList: seq<string>)
    ensures IsSubsequence(LoadFilesFilter(fileList), fileList)
    ensures forall f :: f in LoadFilesFilter(fileList) <==> f in fileList && !ShadowedJs(f, fileList)
    ensures LoadFilesFilter(LoadFilesFilter(fileList)) == LoadFilesFilter(fileList)
  {
    var r := LoadFilesFilter(fileList);
    KeepFilesInOrder(fileList, fileList);
    forall f | f in r ensures !ShadowedJs(f, r) {
      if EndsWith(f, ".js") {
        var twin := f[..|f| - 2] + "ts";
        assert twin !in fileList;
      }
    }
    KeepFilesUnchanged(r, r);
  }

  lemma {:induction false} KeepFilesUnchanged(fs: seq<string>, all: seq<string>)
    requires forall f :: f in fs ==> !ShadowedJs(f, all)
    ensures KeepFiles(fs, all) == fs
  {
    if fs != [] {
      assert fs[0] in fs;
      KeepFilesUnchanged(fs[1..], all);
      assert [fs[0]] + fs[1..] == fs;
    }
  }
}
