/** What wandb/sdk/lib/paths.py promises about `PurePosixPath` parsing,
    `LogicalPath` and `sanitize_path`, proved of the model in module Paths. */
module PathProperties {
  import opened Paths

  // ---------------------------------------------------------------------------
  // split / join
  // ---------------------------------------------------------------------------

  /** Joining the pieces of a split gives back the string. */
  lemma {:induction false} JoinSplit(s: string, sep: char)
    ensures Join(Split(s, sep), sep) == s
  {
    if |s| > 0 {
      JoinSplit(s[1..], sep);
      var rest := Split(s[1..], sep);
      if s[0] == sep {
        assert Split(s, sep) == [""] + rest;
        assert Join([""] + rest, sep) == "" + [sep] + Join(rest, sep) by {
          assert ([""] + rest)[1..] == rest;
        }
      } else {
        if |rest| == 1 {
          assert Split(s, sep) == [[s[0]] + rest[0]];
        } else {
          assert Split(s, sep) == [[s[0]] + rest[0]] + rest[1..];
          assert Join(rest, sep) == rest[0] + [sep] + Join(rest[1..], sep);
          assert ([[s[0]] + rest[0]] + rest[1..])[1..] == rest[1..];
        }
      }
    }
  }

  lemma {:induction false} SplitNoSep(s: string, sep: char)
    requires sep !in s
    ensures Split(s, sep) == [s]
  {
    if |s| > 0 {
      SplitNoSep(s[1..], sep);
      assert [s[0]] + s[1..] == s;
    }
  }

  /** A piece without the separator, then the separator: one piece. */
  lemma {:induction false} SplitAfterPiece(x: string, sep: char, y: string)
    requires sep !in x
    ensures Split(x + [sep] + y, sep) == [x] + Split(y, sep)
  {
    if |x| == 0 {
      assert x + [sep] + y == [sep] + y;
      assert ([sep] + y)[1..] == y;
    } else {
      assert (x + [sep] + y)[1..] == x[1..] + [sep] + y;
      SplitAfterPiece(x[1..], sep, y);
      assert [x[0]] + x[1..] == x;
    }
  }

  /** Splitting a join of separator-free pieces gives back the pieces. */
  lemma {:induction false} SplitJoin(parts: seq<string>, sep: char)
    requires |parts| >= 1
    requires forall i :: 0 <= i < |parts| ==> sep !in parts[i]
    ensures Split(Join(parts, sep), sep) == parts
  {
    if |parts| == 1 {
      SplitNoSep(parts[0], sep);
    } else {
      SplitJoin(parts[1..], sep);
      SplitAfterPiece(parts[0], sep, Join(parts[1..], sep));
      assert [parts[0]] + parts[1..] == parts;
    }
  }

  lemma {:induction false} JoinFirst(parts: seq<string>, sep: char)
    requires |parts| >= 1 && |parts[0]| > 0
    ensures |Join(parts, sep)| > 0 && Join(parts, sep)[0] == parts[0][0]
  {
  }

  lemma {:induction false} JoinLast(parts: seq<string>, sep: char)
    requires |parts| >= 1 && |parts[|parts| - 1]| > 0
    ensures var j := Join(parts, sep); var l := parts[|parts| - 1];
            |j| > 0 && j[|j| - 1] == l[|l| - 1]
  {
    if |parts| > 1 {
      JoinLast(parts[1..], sep);
      assert parts[1..][|parts[1..]| - 1] == parts[|parts| - 1];
    }
  }

  lemma {:induction false} JoinChars(parts: seq<string>, sep: char, ok: char -> bool)
    requires ok(sep)
    requires forall i :: 0 <= i < |parts| ==> AllChars(parts[i], ok)
    ensures AllChars(Join(parts, sep), ok)
  {
    if |parts| > 1 {
      JoinChars(parts[1..], sep, ok);
      var j := parts[0] + [sep] + Join(parts[1..], sep);
      forall i | 0 <= i < |j| ensures ok(j[i]) {
        if i < |parts[0]| {
          assert j[i] == parts[0][i];
        } else if i > |parts[0]| {
          assert j[i] == Join(parts[1..], sep)[i - |parts[0]| - 1];
        }
      }
    }
  }

  /** Every piece of a split uses only characters of the string. */
  lemma {:induction false} SplitChars(s: string, sep: char, ok: char -> bool)
    requires AllChars(s, ok)
    ensures forall i :: 0 <= i < |Split(s, sep)| ==> AllChars(Split(s, sep)[i], ok)
  {
    if |s| > 0 {
      SplitChars(s[1..], sep, ok);
    }
  }

  /** A string that does not end in the separator has a last piece that is
      not empty and ends in the same character. */
  lemma {:induction false} SplitLast(s: string, sep: char)
    requires |s| > 0 && s[|s| - 1] != sep
    ensures var r := Split(s, sep); var l := r[|r| - 1];
            |l| > 0 && l[|l| - 1] == s[|s| - 1]
  {
    if |s| > 1 {
      SplitLast(s[1..], sep);
    }
  }

  lemma {:induction false} SplitFirstPiece(c: char, s: string, sep: char)
    requires c != sep
    ensures Split([c] + s, sep)[0] == [c] + Split(s, sep)[0]
  {
    assert ([c] + s)[1..] == s;
  }

  // ---------------------------------------------------------------------------
  // Parsing and printing a PurePosixPath
  // ---------------------------------------------------------------------------

  lemma {:induction false} KeepAllParts(segments: seq<string>)
    requires forall i :: 0 <= i < |segments| ==> IsPart(segments[i])
    ensures KeepParts(segments) == segments
  {
    if |segments| > 0 {
      KeepAllParts(segments[1..]);
      assert [segments[0]] + segments[1..] == segments;
    }
  }

  lemma {:induction false} KeepPartsLast(segments: seq<string>)
    requires |segments| > 0
    requires var l := segments[|segments| - 1]; l != "" && l != "."
    ensures var r := KeepParts(segments);
            |r| > 0 && r[|r| - 1] == segments[|segments| - 1]
  {
    if |segments| > 1 {
      KeepPartsLast(segments[1..]);
      assert segments[1..][|segments[1..]| - 1] == segments[|segments| - 1];
    }
  }

  lemma {:induction false} KeepPartsChars(segments: seq<string>, ok: char -> bool)
    requires forall i :: 0 <= i < |segments| ==> AllChars(segments[i], ok)
    ensures forall i :: 0 <= i < |KeepParts(segments)| ==> AllChars(KeepParts(segments)[i], ok)
  {
    if |segments| > 0 {
      KeepPartsChars(segments[1..], ok);
    }
  }

  /** The parts of a parsed string use only characters of the string. */
  lemma ParseChars(s: string, ok: char -> bool)
    requires AllChars(s, ok)
    ensures forall i :: 0 <= i < |Parse(s).parts| ==> AllChars(Parse(s).parts[i], ok)
  {
    SplitChars(s, '/', ok);
    KeepPartsChars(Split(s, '/'), ok);
  }

  lemma {:induction false} LeadingSlashesOf(root: string, rest: string)
    requires forall i :: 0 <= i < |root| ==> root[i] == '/'
    requires rest == "" || rest[0] != '/'
    ensures LeadingSlashes(root + rest) == |root|
  {
    if |root| > 0 {
      assert (root + rest)[1..] == root[1..] + rest;
      LeadingSlashesOf(root[1..], rest);
    } else {
      assert root + rest == rest;
    }
  }

  /** A single part parses as itself. */
  lemma ParsePart(x: string)
    requires IsPart(x)
    ensures Parse(x) == PurePosixPath("", [x])
  {
    SplitNoSep(x, '/');
    assert LeadingSlashes(x) == 0;
    assert KeepParts([x]) == [x] by {
      assert [x][1..] == [];
    }
  }

  /** A path printed and parsed again is the same path: parsing is the
      inverse of printing on well-formed paths. */
  lemma ParseStr(p: PurePosixPath)
    requires WellFormed(p)
    ensures Parse(Str(p)) == p
  {
    if p.parts == [] {
      ParseStrRoot(p.root);
    } else {
      assert Str(p) == p.root + Join(p.parts, '/');
      ParseRooted(p.root, p.parts);
    }
  }

  /** A root followed by joined parts parses to that root and those parts. */
  lemma ParseRooted(root: string, parts: seq<string>)
    requires root == "" || root == "/" || root == "//"
    requires parts != [] && forall i :: 0 <= i < |parts| ==> IsPart(parts[i])
    ensures Parse(root + Join(parts, '/')) == PurePosixPath(root, parts)
  {
    RootOfRooted(root, parts);
    KeepRooted(root, parts);
  }

  /** The root of a root followed by joined parts is that root. */
  lemma RootOfRooted(root: string, parts: seq<string>)
    requires root == "" || root == "/" || root == "//"
    requires parts != [] && IsPart(parts[0])
    ensures RootOf(root + Join(parts, '/')) == root
  {
    JoinFirst(parts, '/');
    PartStart(parts[0]);
    RootSlashes(root);
    LeadingSlashesOf(root, Join(parts, '/'));
  }

  /** The parts kept from a root followed by joined parts are those parts. */
  lemma KeepRooted(root: string, parts: seq<string>)
    requires root == "" || root == "/" || root == "//"
    requires parts != [] && forall i :: 0 <= i < |parts| ==> IsPart(parts[i])
    ensures KeepParts(Split(root + Join(parts, '/'), '/')) == parts
  {
    KeepJoined(parts);
    KeepAfterRoot(root, Join(parts, '/'));
  }

  /** A root adds only empty segments in front, which are dropped. */
  lemma KeepAfterRoot(root: string, t: string)
    requires root == "" || root == "/" || root == "//"
    ensures KeepParts(Split(root + t, '/')) == KeepParts(Split(t, '/'))
  {
    RootPrefix(root, t);
    if root == "/" {
      KeepAfterSlash(t);
    } else if root == "//" {
      KeepAfterSlash(t);
      KeepAfterSlash("/" + t);
    }
  }

  /** A root in front of a string, as slashes one at a time. */
  lemma RootPrefix(root: string, t: string)
    requires root == "" || root == "/" || root == "//"
    ensures root == "" ==> root + t == t
    ensures root == "//" ==> root + t == "/" + ("/" + t)
  {
    if root == "" {
      assert root + t == t;
    } else if root == "//" {
      assert root + t == "/" + ("/" + t);
    }
  }

  /** The parts kept from joined parts are those parts. */
  lemma KeepJoined(parts: seq<string>)
    requires parts != [] && forall i :: 0 <= i < |parts| ==> IsPart(parts[i])
    ensures KeepParts(Split(Join(parts, '/'), '/')) == parts
  {
    SplitJoin(parts, '/');
    KeepAllParts(parts);
  }

  /** A root is made of slashes only. */
  lemma RootSlashes(root: string)
    requires root == "" || root == "/" || root == "//"
    ensures forall i :: 0 <= i < |root| ==> root[i] == '/'
  {
    if root == "/" {
      assert |root| == 1 && root[0] == '/';
    } else if root == "//" {
      assert |root| == 2 && root[0] == '/' && root[1] == '/';
    }
  }

  /** A part does not start with a slash. */
  lemma PartStart(x: string)
    requires IsPart(x)
    ensures x[0] != '/'
  {
    assert x[0] in x;
  }

  lemma SlashTail(t: string)
    ensures ([ '/' ] + t)[1..] == t
  {
  }

  /** A leading slash adds only an empty segment, which is dropped. */
  lemma KeepAfterSlash(t: string)
    ensures KeepParts(Split([ '/' ] + t, '/')) == KeepParts(Split(t, '/'))
  {
    SlashTail(t);
    assert Split([ '/' ] + t, '/') == [""] + Split(t, '/');
    assert ([""] + Split(t, '/'))[1..] == Split(t, '/');
  }

  /** A bare root, or the empty relative path ".", parses back to itself. */
  lemma ParseStrRoot(root: string)
    requires root == "" || root == "/" || root == "//"
    ensures Parse(Str(PurePosixPath(root, []))) == PurePosixPath(root, [])
  {
    if root == "" {
      assert Str(PurePosixPath(root, [])) == ".";
      ParseDot();
    } else if root == "/" {
      assert Str(PurePosixPath(root, [])) == "/";
      ParseSlash();
    } else {
      assert Str(PurePosixPath(root, [])) == "//";
      ParseDoubleSlash();
    }
  }

  /** "." has no root and no parts. */
  lemma ParseDot()
    ensures Parse(".") == PurePosixPath("", [])
  {
    assert "."[1..] == "";
    assert Split("", '/') == [""];
    SplitNoSep(".", '/');
  }

  /** "/" is the root alone. */
  lemma ParseSlash()
    ensures Parse("/") == PurePosixPath("/", [])
  {
    assert "/"[1..] == "";
    assert Split("", '/') == [""];
    assert Split("/", '/') == ["", ""];
    assert KeepParts(["", ""]) == [] by {
      assert ["", ""][1..] == [""];
      assert [""][1..] == [];
    }
  }

  /** "//" is the double-slash root alone. */
  lemma ParseDoubleSlash()
    ensures Parse("//") == PurePosixPath("//", [])
  {
    assert "//"[1..] == "/";
    assert "/"[1..] == "";
    assert Split("", '/') == [""];
    assert Split("/", '/') == ["", ""];
    assert Split("//", '/') == ["", "", ""];
    assert KeepParts(["", "", ""]) == [] by {
      assert ["", "", ""][1..] == ["", ""];
      assert ["", ""][1..] == [""];
      assert [""][1..] == [];
    }
  }

  /** Printing a parsed string is a normalisation: doing it twice is doing it
      once. */
  lemma NormalizeIdempotent(s: string)
    ensures Str(Parse(Str(Parse(s)))) == Str(Parse(s))
  {
    ParseStr(Parse(s));
  }

  /** Relative parts, joined the way `PurePosixPath(*parts)` joins them. */
  lemma {:induction false} FromPartsPlain(parts: seq<string>)
    requires forall i :: 0 <= i < |parts| ==> IsPart(parts[i])
    ensures FromParts(parts) == PurePosixPath("", parts)
  {
    if |parts| > 0 {
      var init := parts[..|parts| - 1];
      FromPartsPlain(init);
      ParsePart(parts[|parts| - 1]);
      assert init + [parts[|parts| - 1]] == parts;
    }
  }

  /** `str(p)` of a relative path does not start with a slash. */
  lemma StrRelativeStart(p: PurePosixPath)
    requires WellFormed(p) && p.root == ""
    ensures var s := Str(p); |s| > 0 && s[0] != '/'
  {
    if p.parts != [] {
      JoinFirst(p.parts, '/');
    }
  }

  /** The characters of `str(p)` are those of its parts, slashes and,
      for the empty relative path, a dot. */
  lemma StrChars(p: PurePosixPath, ok: char -> bool)
    requires WellFormed(p)
    requires ok('/') && ok('.')
    requires forall i :: 0 <= i < |p.parts| ==> AllChars(p.parts[i], ok)
    ensures AllChars(Str(p), ok)
  {
    JoinChars(p.parts, '/', ok);
  }

  // ---------------------------------------------------------------------------
  // LogicalPath
  // ---------------------------------------------------------------------------

  /** `LogicalPath` of a string is the string off Windows; on Windows it is
      the string with every backslash turned into a slash, so none is left. */
  lemma LogicalPathConversion(path: string, windows: bool)
    ensures !windows ==> LogicalPath(path, windows) == path
    ensures windows ==> (forall i :: 0 <= i < |LogicalPath(path, windows)| ==>
                           LogicalPath(path, windows)[i] != '\\')
    ensures windows ==> (|LogicalPath(path, windows)| == |path| &&
              forall i :: 0 <= i < |path| ==>
                LogicalPath(path, windows)[i] == if path[i] == '\\' then '/' else path[i])
  {
  }

  /** Applying `LogicalPath` twice equals applying it once. */
  lemma {:induction false} LogicalPathIdempotent(path: string, windows: bool)
    ensures LogicalPath(LogicalPath(path, windows), windows) == LogicalPath(path, windows)
  {
    if windows {
      var once := LogicalPath(path, windows);
      var twice := LogicalPath(once, windows);
      assert |twice| == |once|;
      forall i | 0 <= i < |once| ensures twice[i] == once[i] {
        assert once[i] == if path[i] == '\\' then '/' else path[i];
      }
    }
  }

  /** A path converted to a `LogicalPath` and back to a `PurePosixPath`
      is the path itself, and so is a second round. */
  lemma LogicalPathRoundTrip(path: string, windows: bool)
    ensures var pp := Parse(LogicalPath(path, windows));
            Parse(LogicalPathOf(pp, windows)) == pp
  {
    var l := LogicalPath(path, windows);
    var pp := Parse(l);
    var noBackslash := c => !windows || c != '\\';
    assert AllChars(l, noBackslash);
    ParseChars(l, noBackslash);
    StrChars(pp, noBackslash);
    if windows {
      LogicalPathPlain(Str(pp), windows);
    }
    ParseStr(pp);
  }

  /** `p / other` with an absolute `other` is `other`. */
  lemma DivAbsolute(self: string, other: string, windows: bool)
    requires Parse(other).root != ""
    ensures Div(self, other, windows) == LogicalPathOf(Parse(other), windows)
  {
  }

  lemma ParseFoo()
    ensures Parse("/foo") == PurePosixPath("/", ["foo"])
  {
    assert IsPart("foo");
    assert Join(["foo"], '/') == "foo";
    ParseRooted("/", ["foo"]);
    assert "/" + "foo" == "/foo";
  }

  /** A string without backslashes is its own `LogicalPath`. */
  lemma LogicalPathPlain(path: string, windows: bool)
    requires forall i :: 0 <= i < |path| ==> path[i] != '\\'
    ensures LogicalPath(path, windows) == path
  {
  }

  /** The test case `p / "/foo" == "/foo"`, on every platform. */
  lemma DivAbsoluteFoo(self: string, windows: bool)
    ensures Div(self, "/foo", windows) == "/foo"
  {
    ParseFoo();
    assert Str(PurePosixPath("/", ["foo"])) == "/foo";
    LogicalPathPlain("/foo", windows);
  }

  /** Off Windows, `p / other` with a relative `other` parses to the parts of
      `p` followed by the parts of `other`, under the root of `p`. */
  lemma DivRelative(self: string, other: string)
    requires Parse(other).root == ""
    ensures Parse(Div(self, other, false)) ==
            PurePosixPath(Parse(self).root, Parse(self).parts + Parse(other).parts)
  {
    var joined := JoinPath(Parse(self), Parse(other));
    assert WellFormed(joined);
    ParseStr(joined);
  }

  // ---------------------------------------------------------------------------
  // sanitize_path
  // ---------------------------------------------------------------------------

  /** ".", the empty path, is what an input with nothing portable in it
      sanitises to. */
  lemma FinishEmpty()
    ensures FinishSanitize("") == PurePosixPath("", [])
  {
    assert Split("", '/') == [""];
    assert BeforeFirstDot("") == "";
  }

  /** The parts `FinishSanitize` keeps before the last-name guard. */
  function GuardedParts(s: string): seq<string>
  {
    GuardAll(Parse(RStrip(s, " ./")).parts)
  }

  /** Parts that parse as themselves and are not reserved device names. */
  predicate PortableParts(parts: seq<string>)
  {
    forall i :: 0 <= i < |parts| ==> IsPart(parts[i]) && !IsReserved(parts[i])
  }

  lemma UnderscoreNotReserved(x: string)
    ensures !IsReserved("_" + x)
  {
    if IsReserved("_" + x) {
      ReservedNamesStartWithLetter("_" + x);
    }
  }

  lemma UnderscorePart(x: string)
    requires IsPart(x)
    ensures IsPart("_" + x) && !IsReserved("_" + x)
  {
    UnderscoreNotReserved(x);
    assert ("_" + x)[0] == '_';
    assert ("_" + x)[1..] == x;
  }

  lemma GuardedIsPart(x: string)
    requires IsPart(x)
    ensures IsPart(GuardReserved(x)) && !IsReserved(GuardReserved(x))
  {
    if IsReserved(x) {
      UnderscorePart(x);
    }
  }

  /** For input that does not start with a slash, the guarded path is the
      relative path of the guarded parts, and they are portable. */
  lemma GuardedPathShape(s: string)
    requires s == "" || s[0] != '/'
    ensures GuardedPath(s) == PurePosixPath("", GuardedParts(s))
    ensures PortableParts(GuardedParts(s))
  {
    var stripped := RStrip(s, " ./");
    var p := Parse(stripped);
    assert LeadingSlashes(stripped) == 0;
    assert Parts(p) == p.parts;
    var g := GuardAll(p.parts);
    forall i | 0 <= i < |g| ensures IsPart(g[i]) && !IsReserved(g[i]) {
      GuardedIsPart(p.parts[i]);
    }
    FromPartsPlain(g);
  }

  /** The last-name guard keeps a portable relative path portable and
      relative, changes at most its last part, and leaves that part's text
      before the first dot unreserved. */
  lemma GuardLastNameShape(pp: PurePosixPath)
    requires pp.root == "" && PortableParts(pp.parts)
    ensures var r := GuardLastName(pp);
            r.root == "" && PortableParts(r.parts) &&
            !IsReserved(BeforeFirstDot(Name(r))) &&
            |r.parts| == |pp.parts| &&
            (forall i :: 0 <= i < |pp.parts| - 1 ==> r.parts[i] == pp.parts[i]) &&
            (Name(r) == Name(pp) || Name(r) == "_" + Name(pp))
  {
    if IsReserved(BeforeFirstDot(Name(pp))) {
      var name := Name(pp);
      var r := WithName(pp, "_" + name);
      UnderscorePart(name);
      SplitFirstPiece('_', name, '.');
      assert "_" + name == ['_'] + name;
      UnderscoreNotReserved(BeforeFirstDot(name));
      assert r.parts == pp.parts[..|pp.parts| - 1] + ["_" + name];
    }
  }

  /** For input that does not start with a slash, `FinishSanitize` yields a
      relative, well-formed path with portable parts: the guarded parts of
      the stripped input, the last one possibly prefixed by `_`. */
  lemma FinishShape(s: string)
    requires s == "" || s[0] != '/'
    ensures var r := FinishSanitize(s); var g := GuardedParts(s);
            r.root == "" && WellFormed(r) && PortableParts(r.parts) &&
            !IsReserved(BeforeFirstDot(Name(r))) &&
            |r.parts| == |g| &&
            (forall i :: 0 <= i < |g| - 1 ==> r.parts[i] == g[i]) &&
            (|g| > 0 ==> r.parts[|g| - 1] == g[|g| - 1] ||
                         r.parts[|g| - 1] == "_" + g[|g| - 1])
  {
    GuardedPathShape(s);
    GuardedLastShape(GuardedPath(s), GuardedParts(s));
  }

  /** GuardLastNameShape, stated for a relative path of given parts. */
  lemma GuardedLastShape(pp: PurePosixPath, g: seq<string>)
    requires pp == PurePosixPath("", g) && PortableParts(g)
    ensures var r := GuardLastName(pp);
            r.root == "" && WellFormed(r) && PortableParts(r.parts) &&
            !IsReserved(BeforeFirstDot(Name(r))) &&
            |r.parts| == |g| &&
            (forall i :: 0 <= i < |g| - 1 ==> r.parts[i] == g[i]) &&
            (|g| > 0 ==> r.parts[|g| - 1] == g[|g| - 1] ||
                         r.parts[|g| - 1] == "_" + g[|g| - 1])
  {
    GuardLastNameShape(pp);
  }

  /** No part of a sanitised path is reserved, and neither is the text of its
      last part before the first dot. */
  lemma FinishNotReserved(s: string)
    requires s == "" || s[0] != '/'
    ensures var r := FinishSanitize(s);
            (forall i :: 0 <= i < |Parts(r)| ==> !IsReserved(Parts(r)[i])) &&
            !IsReserved(BeforeFirstDot(Name(r)))
  {
    GuardedPathShape(s);
    GuardLastNameShape(GuardedPath(s));
    PortableRelative(FinishSanitize(s));
  }

  lemma PortableRelative(r: PurePosixPath)
    requires r.root == "" && PortableParts(r.parts)
    ensures forall i :: 0 <= i < |Parts(r)| ==> !IsReserved(Parts(r)[i])
  {
    assert Parts(r) == r.parts;
  }

  /** A string ending in neither a slash nor a dot has a last part ending
      in the same character. */
  lemma ParsedLast(s: string)
    requires |s| > 0 && s[|s| - 1] != '/' && s[|s| - 1] != '.'
    ensures var ps := Parse(s).parts;
            |ps| > 0 && |ps[|ps| - 1]| > 0 && ps[|ps| - 1][|ps[|ps| - 1]| - 1] == s[|s| - 1]
  {
    SplitLast(s, '/');
    KeptLast(Split(s, '/'), s[|s| - 1]);
  }

  /** Segments whose last one ends in a character other than a dot keep a
      last part ending in that character. */
  lemma KeptLast(segs: seq<string>, c: char)
    requires |segs| > 0 && c != '.'
    requires var l := segs[|segs| - 1]; |l| > 0 && l[|l| - 1] == c
    ensures var r := KeepParts(segs);
            |r| > 0 && |r[|r| - 1]| > 0 && r[|r| - 1][|r[|r| - 1]| - 1] == c
  {
    LastNotDot(segs[|segs| - 1]);
    KeepPartsLast(segs);
  }

  lemma LastNotDot(l: string)
    requires |l| > 0 && l[|l| - 1] != '.'
    ensures l != "."
  {
  }

  lemma GuardReservedLast(x: string)
    requires |x| > 0
    ensures var g := GuardReserved(x); |g| > 0 && g[|g| - 1] == x[|x| - 1]
  {
    assert ("_" + x)[|"_" + x| - 1] == x[|x| - 1];
  }

  /** When something is left after stripping, the guarded path has a name,
      ending in the last character left. */
  lemma GuardedPathLast(s: string)
    requires s == "" || s[0] != '/'
    requires RStrip(s, " ./") != ""
    ensures var n := Name(GuardedPath(s)); var stripped := RStrip(s, " ./");
            |GuardedPath(s).parts| > 0 && |n| > 0 && n[|n| - 1] == stripped[|stripped| - 1]
  {
    var stripped := RStrip(s, " ./");
    var ps := Parse(stripped).parts;
    ParsedLast(stripped);
    GuardedPathShape(s);
    GuardAllLast(ps);
  }

  lemma GuardAllLast(ps: seq<string>)
    requires |ps| > 0 && |ps[|ps| - 1]| > 0
    ensures var n := Name(PurePosixPath("", GuardAll(ps))); var x := ps[|ps| - 1];
            |GuardAll(ps)| > 0 && |n| > 0 && n[|n| - 1] == x[|x| - 1]
  {
    GuardReservedLast(ps[|ps| - 1]);
  }

  /** The last-name guard keeps the last character of the name. */
  lemma LastNameEnding(pp: PurePosixPath)
    requires |Name(pp)| > 0
    ensures var n := Name(GuardLastName(pp)); var m := Name(pp);
            |GuardLastName(pp).parts| > 0 && |n| > 0 && n[|n| - 1] == m[|m| - 1]
  {
    assert ("_" + Name(pp))[|"_" + Name(pp)| - 1] == Name(pp)[|Name(pp)| - 1];
  }

  /** A relative path printed after the last-name guard ends in the last
      character of its name. */
  lemma GuardedStrLast(pp: PurePosixPath)
    requires pp.root == "" && |Name(pp)| > 0
    ensures var t := Str(GuardLastName(pp)); var m := Name(pp);
            |t| > 0 && t[|t| - 1] == m[|m| - 1]
  {
    LastNameEnding(pp);
    JoinLast(GuardLastName(pp).parts, '/');
  }

  /** Nothing left after stripping: the guarded path is empty. */
  lemma GuardedPathEmpty(s: string)
    requires RStrip(s, " ./") == ""
    ensures GuardedPath(s) == PurePosixPath("", [])
  {
    assert Split("", '/') == [""];
  }

  /** The empty path is printed as ".". */
  lemma GuardedStrEmpty()
    ensures Str(GuardLastName(PurePosixPath("", []))) == "."
  {
    assert BeforeFirstDot("") == "";
  }

  /** A sanitised path does not end in a space, and ends in a dot only when it
      is ".". */
  lemma FinishEnding(s: string)
    requires s == "" || s[0] != '/'
    ensures var t := Str(FinishSanitize(s));
            |t| > 0 && t[|t| - 1] != ' ' && (t[|t| - 1] == '.' ==> t == ".")
  {
    if RStrip(s, " ./") == "" {
      GuardedPathEmpty(s);
      GuardedStrEmpty();
    } else {
      GuardedPathShape(s);
      GuardedPathLast(s);
      GuardedStrLast(GuardedPath(s));
    }
  }

  lemma UnderscoreChars(x: string, ok: char -> bool)
    requires AllChars(x, ok) && ok('_')
    ensures AllChars("_" + x, ok)
  {
    forall k | 0 <= k < |"_" + x| ensures ok(("_" + x)[k]) {
      if k > 0 { assert ("_" + x)[k] == x[k - 1]; }
    }
  }

  /** The guarded parts use characters of the input and `_`. */
  lemma GuardedChars(s: string, ok: char -> bool)
    requires AllChars(s, ok) && ok('_')
    ensures forall i :: 0 <= i < |GuardedParts(s)| ==> AllChars(GuardedParts(s)[i], ok)
  {
    var stripped := RStrip(s, " ./");
    assert AllChars(stripped, ok);
    var ps := Parse(stripped).parts;
    ParseChars(stripped, ok);
    forall i | 0 <= i < |ps| ensures AllChars(GuardReserved(ps[i]), ok) {
      UnderscoreChars(ps[i], ok);
    }
  }

  /** The last-name guard adds no character other than `_`. */
  lemma LastNameChars(pp: PurePosixPath, ok: char -> bool)
    requires ok('_')
    requires forall i :: 0 <= i < |pp.parts| ==> AllChars(pp.parts[i], ok)
    ensures var r := GuardLastName(pp);
            forall i :: 0 <= i < |r.parts| ==> AllChars(r.parts[i], ok)
  {
    if IsReserved(BeforeFirstDot(Name(pp))) {
      UnderscoreChars(Name(pp), ok);
    }
  }

  /** The characters of a sanitised path come from its input, plus `_`, `/`
      and `.`. */
  lemma FinishChars(s: string, ok: char -> bool)
    requires s == "" || s[0] != '/'
    requires AllChars(s, ok) && ok('_') && ok('/') && ok('.')
    ensures var r := FinishSanitize(s);
            AllChars(Str(r), ok) && forall i :: 0 <= i < |r.parts| ==> AllChars(r.parts[i], ok)
  {
    GuardedPathShape(s);
    GuardedChars(s, ok);
    var pp := GuardedPath(s);
    LastNameChars(pp, ok);
    GuardLastNameShape(pp);
    StrChars(GuardLastName(pp), ok);
  }

  /** No reserved name contains a dot. */
  lemma ReservedNoDot(x: string)
    requires IsReserved(x)
    ensures forall k :: 0 <= k < |x| ==> x[k] != '.'
  {
  }

  /** The first piece of a split ends just before the first separator. */
  lemma {:induction false} SplitFirstAt(s: string, i: nat, sep: char)
    requires i < |s| && s[i] == sep
    requires forall k :: 0 <= k < i ==> s[k] != sep
    ensures Split(s, sep)[0] == s[..i]
  {
    if i > 0 {
      SplitFirstAt(s[1..], i - 1, sep);
      assert s[..i] == [s[0]] + s[1..][..i - 1];
    }
  }

  /** When the text of a name before its first dot is not reserved, neither
      is its stem. */
  lemma StemNotReserved(name: string)
    requires !IsReserved(BeforeFirstDot(name))
    ensures !IsReserved(Stem(name))
  {
    var i := RFind(name, '.');
    if IsReserved(Stem(name)) {
      ReservedNoDot(Stem(name));
      if 0 < i < |name| - 1 {
        SplitFirstAt(name, i, '.');
      } else {
        SplitNoSep(name, '.');
      }
    }
  }

  /** The anchor-free stage is a relative path. */
  lemma AnchorFreeRelative(path: string, printable: char -> bool)
    ensures AnchorFree(path, printable).root == ""
    ensures WellFormed(AnchorFree(path, printable))
  {
  }

  /** The input of `FinishSanitize` in `sanitize_path` does not start with a
      slash. */
  lemma ProhibitedReplacedStart(path: string, printable: char -> bool)
    ensures var s := ReplaceProhibited(Str(AnchorFree(path, printable)));
            s == "" || s[0] != '/'
  {
    StrRelativeStart(AnchorFree(path, printable));
  }

  /** The characters surviving to the anchor-free stage: no backslash, and
      only printable ones if a slash is printable. */
  lemma AnchorFreeChars(path: string, printable: char -> bool, ok: char -> bool)
    requires forall c :: printable(c) && c != '\\' ==> ok(c)
    requires ok('/')
    ensures var p := AnchorFree(path, printable);
            forall i :: 0 <= i < |p.parts| ==> AllChars(p.parts[i], ok)
  {
    var s1 := Str(RelativeToAnchor(Parse(path)));
    var s2 := FilterChars(s1, printable);
    var s3 := ReplaceChar(s2, '\\', '/');
    assert AllChars(s3, ok) by {
      forall i | 0 <= i < |s3| ensures ok(s3[i]) {
        assert printable(s2[i]);
      }
    }
    ParseChars(s3, ok);
  }

  /** Characters of the string `sanitize_path` produces, for any character
      class `ok` that holds for every printable character other than a
      backslash and for `_`, `/` and `.`. */
  lemma SanitizedChars(path: string, printable: char -> bool, ok: char -> bool)
    requires forall c :: printable(c) && c != '\\' && c !in ProhibitedChars ==> ok(c)
    requires ok('_') && ok('/') && ok('.')
    ensures var r := SanitizePath(path, printable);
            AllChars(Str(r), ok) && forall i :: 0 <= i < |r.parts| ==> AllChars(r.parts[i], ok)
  {
    ReplacedChars(path, printable, ok);
    ProhibitedReplacedStart(path, printable);
    FinishChars(ReplaceProhibited(Str(AnchorFree(path, printable))), ok);
  }

  /** The string `sanitize_path` strips and guards has only characters of
      the class. */
  lemma ReplacedChars(path: string, printable: char -> bool, ok: char -> bool)
    requires forall c :: printable(c) && c != '\\' && c !in ProhibitedChars ==> ok(c)
    requires ok('_') && ok('/') && ok('.')
    ensures AllChars(ReplaceProhibited(Str(AnchorFree(path, printable))), ok)
  {
    var p := AnchorFree(path, printable);
    var wide := c => ok(c) || c in ProhibitedChars;
    AnchorFreeChars(path, printable, wide);
    StrChars(p, wide);
    var s := ReplaceProhibited(Str(p));
    forall i | 0 <= i < |s| ensures ok(s[i]) {
      assert wide(Str(p)[i]);
    }
  }

  /** `sanitize_path` never returns an absolute path. */
  lemma SanitizedRelative(path: string, printable: char -> bool)
    ensures SanitizePath(path, printable).root == ""
    ensures WellFormed(SanitizePath(path, printable))
  {
    ProhibitedReplacedStart(path, printable);
    FinishShape(ReplaceProhibited(Str(AnchorFree(path, printable))));
  }

  /** The string form of a sanitised path has no backslash, only printable
      characters (when `/`, `_` and `.` are printable, as `str.isprintable`
      says), and none of `<>:"|?*`. */
  lemma SanitizedCharacters(path: string, printable: char -> bool)
    requires printable('/') && printable('_') && printable('.')
    ensures var t := Str(SanitizePath(path, printable));
            forall i :: 0 <= i < |t| ==>
              t[i] != '\\' && printable(t[i]) && t[i] !in ProhibitedChars
  {
    SanitizedChars(path, printable, c => c != '\\' && printable(c) && c !in ProhibitedChars);
  }

  /** The string form of a sanitised path does not end in a space, and ends
      in a dot only when it is ".". */
  lemma SanitizedEnding(path: string, printable: char -> bool)
    ensures var t := Str(SanitizePath(path, printable));
            |t| > 0 && t[|t| - 1] != ' ' && (t[|t| - 1] == '.' ==> t == ".")
  {
    ProhibitedReplacedStart(path, printable);
    FinishEnding(ReplaceProhibited(Str(AnchorFree(path, printable))));
  }

  /** No part of a sanitised path is a reserved Windows device name, and
      neither is the text of its last part before the first dot. */
  lemma SanitizedNotReserved(path: string, printable: char -> bool)
    ensures var r := SanitizePath(path, printable);
            (forall i :: 0 <= i < |Parts(r)| ==> !IsReserved(Parts(r)[i])) &&
            !IsReserved(BeforeFirstDot(Name(r)))
  {
    ProhibitedReplacedStart(path, printable);
    FinishNotReserved(ReplaceProhibited(Str(AnchorFree(path, printable))));
  }

  /** The stem of a sanitised path is not a reserved device name. */
  lemma SanitizedStemNotReserved(path: string, printable: char -> bool)
    ensures !IsReserved(Stem(Name(SanitizePath(path, printable))))
  {
    SanitizedNotReserved(path, printable);
    StemNotReserved(Name(SanitizePath(path, printable)));
  }
}
