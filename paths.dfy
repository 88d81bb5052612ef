/** String-level model of wandb/sdk/lib/paths.py: the POSIX path parsing that
    `PurePosixPath` performs, `LogicalPath` and its `/` operator, and the
    portable path sanitiser `sanitize_path`. */
module Paths {

  // ---------------------------------------------------------------------------
  // Character-level helpers
  // ---------------------------------------------------------------------------

  /** Every character of `s` satisfies `ok`. */
  predicate AllChars(s: string, ok: char -> bool)
  {
    forall i :: 0 <= i < |s| ==> ok(s[i])
  }

  /** `s.split(sep)` for a one-character separator. */
  function Split(s: string, sep: char): (r: seq<string>)
    ensures |r| >= 1
    ensures forall i :: 0 <= i < |r| ==> sep !in r[i]
    ensures |r[0]| <= |s|
  {
    if |s| == 0 then [""]
    else
      var rest := Split(s[1..], sep);
      if s[0] == sep then [""] + rest
      else [[s[0]] + rest[0]] + rest[1..]
  }

  /** `sep.join(parts)`. */
  function Join(parts: seq<string>, sep: char): string
  {
    if |parts| == 0 then ""
    else if |parts| == 1 then parts[0]
    else parts[0] + [sep] + Join(parts[1..], sep)
  }

  /** `s.replace(from, to)` for single characters, stated pointwise. */
  function ReplaceChar(s: string, from: char, to: char): (r: string)
    ensures |r| == |s|
    ensures forall i :: 0 <= i < |s| ==> r[i] == if s[i] == from then to else s[i]
  {
    if |s| == 0 then ""
    else [if s[0] == from then to else s[0]] + ReplaceChar(s[1..], from, to)
  }

  /** `"".join(c for c in s if keep(c))`. */
  function FilterChars(s: string, keep: char -> bool): (r: string)
    ensures AllChars(r, keep)
    ensures forall i :: 0 <= i < |r| ==> r[i] in s
  {
    if |s| == 0 then ""
    else (if keep(s[0]) then [s[0]] else "") + FilterChars(s[1..], keep)
  }

  /** `s.rstrip(chars)`. */
  function RStrip(s: string, chars: string): (r: string)
    ensures r <= s
    ensures |r| > 0 ==> r[|r| - 1] !in chars
    ensures forall i :: |r| <= i < |s| ==> s[i] in chars
  {
    if |s| > 0 && s[|s| - 1] in chars then RStrip(s[..|s| - 1], chars) else s
  }

  // ---------------------------------------------------------------------------
  // PurePosixPath
  // ---------------------------------------------------------------------------

  /** A parsed POSIX path: its root ("", "/" or "//", as POSIX reserves exactly
      two leading slashes) and its parts, without the root. */
  datatype PurePosixPath = PurePosixPath(root: string, parts: seq<string>)

  /** A part as parsing produces it: non-empty, no separator, not ".". */
  predicate IsPart(x: string)
  {
    x != "" && x != "." && '/' !in x
  }

  predicate WellFormed(p: PurePosixPath)
  {
    (p.root == "" || p.root == "/" || p.root == "//") &&
    forall i :: 0 <= i < |p.parts| ==> IsPart(p.parts[i])
  }

  function LeadingSlashes(s: string): (n: nat)
    ensures n <= |s|
    ensures forall i :: 0 <= i < n ==> s[i] == '/'
    ensures n < |s| ==> s[n] != '/'
  {
    if |s| > 0 && s[0] == '/' then 1 + LeadingSlashes(s[1..]) else 0
  }

  /** The root of a POSIX path: two leading slashes are kept as they are, one
      or three and more become a single slash. */
  function RootOf(s: string): string
  {
    if LeadingSlashes(s) == 0 then ""
    else if LeadingSlashes(s) == 2 then "//"
    else "/"
  }

  /** Empty segments (repeated slashes) and "." segments are dropped. */
  function KeepParts(segments: seq<string>): (r: seq<string>)
    ensures forall i :: 0 <= i < |r| ==> r[i] in segments
    ensures (forall i :: 0 <= i < |segments| ==> '/' !in segments[i]) ==>
              forall i :: 0 <= i < |r| ==> IsPart(r[i])
  {
    if |segments| == 0 then []
    else
      (if segments[0] != "" && segments[0] != "." then [segments[0]] else []) +
      KeepParts(segments[1..])
  }

  /** `PurePosixPath(s)`. */
  function Parse(s: string): (p: PurePosixPath)
    ensures WellFormed(p)
  {
    PurePosixPath(RootOf(s), KeepParts(Split(s, '/')))
  }

  /** `str(p)`, which for a POSIX path is also `p.as_posix()`. */
  function Str(p: PurePosixPath): string
  {
    if p.root == "" && p.parts == [] then "." else p.root + Join(p.parts, '/')
  }

  /** `p.anchor` (a POSIX path has no drive). */
  function Anchor(p: PurePosixPath): string
  {
    p.root
  }

  /** `p.relative_to(p.anchor)`. */
  function RelativeToAnchor(p: PurePosixPath): PurePosixPath
  {
    PurePosixPath("", p.parts)
  }

  /** `p.parts`, which in Python starts with the anchor when there is one. */
  function Parts(p: PurePosixPath): seq<string>
  {
    (if p.root != "" then [p.root] else []) + p.parts
  }

  /** `a / b`: an absolute right operand replaces the left one. */
  function JoinPath(a: PurePosixPath, b: PurePosixPath): PurePosixPath
  {
    if b.root != "" then b else PurePosixPath(a.root, a.parts + b.parts)
  }

  /** `PurePosixPath(*parts)`: the parts joined from left to right. */
  function FromParts(parts: seq<string>): PurePosixPath
  {
    if |parts| == 0 then PurePosixPath("", [])
    else JoinPath(FromParts(parts[..|parts| - 1]), Parse(parts[|parts| - 1]))
  }

  /** `p.name`. */
  function Name(p: PurePosixPath): string
  {
    if |p.parts| == 0 then "" else p.parts[|p.parts| - 1]
  }

  /** `s.rfind(c)`: the last index of `c`, or -1. */
  function RFind(s: string, c: char): (i: int)
    ensures -1 <= i < |s|
    ensures i >= 0 ==> s[i] == c
    ensures forall j :: i < j < |s| ==> s[j] != c
  {
    if |s| == 0 then -1
    else if s[|s| - 1] == c then |s| - 1
    else RFind(s[..|s| - 1], c)
  }

  /** `p.stem` of a name: the name without its last suffix, where a suffix
      needs a dot that is neither the first nor the last character. */
  function Stem(name: string): string
  {
    var i := RFind(name, '.');
    if 0 < i < |name| - 1 then name[..i] else name
  }

  /** `p.with_name(name)`; Python raises when `p` has no name. */
  function WithName(p: PurePosixPath, name: string): (r: PurePosixPath)
    requires |p.parts| > 0
    ensures r.root == p.root && |r.parts| == |p.parts| && Name(r) == name
    ensures forall i :: 0 <= i < |p.parts| - 1 ==> r.parts[i] == p.parts[i]
  {
    PurePosixPath(p.root, p.parts[..|p.parts| - 1] + [name])
  }

  // ---------------------------------------------------------------------------
  // LogicalPath
  // ---------------------------------------------------------------------------

  /** `LogicalPath(path)` of a string: backslashes become slashes on Windows
      only; nothing else is altered. */
  function LogicalPath(path: string, windows: bool): string
  {
    if windows then ReplaceChar(path, '\\', '/') else path
  }

  /** `LogicalPath(p)` of a `PurePosixPath`, which goes through `as_posix()`. */
  function LogicalPathOf(p: PurePosixPath, windows: bool): string
  {
    LogicalPath(Str(p), windows)
  }

  /** `LogicalPath(self) / other`. */
  function Div(self: string, other: string, windows: bool): string
  {
    LogicalPathOf(JoinPath(Parse(self), Parse(other)), windows)
  }

  // ---------------------------------------------------------------------------
  // sanitize_path
  // ---------------------------------------------------------------------------

  const ProhibitedChars: string := "<>:\"|?*"

  const ReservedNames: seq<string> :=
    ["CON", "PRN", "AUX", "NUL",
     "COM1", "COM2", "COM3", "COM4", "COM5", "COM6", "COM7", "COM8", "COM9",
     "LPT1", "LPT2", "LPT3", "LPT4", "LPT5", "LPT6", "LPT7", "LPT8", "LPT9"]

  /** `name in RESERVED_NAMES`, by the shape of the names: CON, PRN, AUX,
      NUL, and COM or LPT followed by a digit from 1 to 9. */
  predicate IsReserved(name: string)
  {
    name == "CON" || name == "PRN" || name == "AUX" || name == "NUL" ||
    (|name| == 4 && (name[..3] == "COM" || name[..3] == "LPT") && '1' <= name[3] <= '9')
  }

  /** The shape test is exactly membership in the list of reserved names. */
  lemma IsReservedListed(name: string)
    ensures IsReserved(name) <==> name in ReservedNames
  {
    if |name| == 4 && (name[..3] == "COM" || name[..3] == "LPT") && '1' <= name[3] <= '9' {
      var d := name[3];
      assert name == [name[0], name[1], name[2], d];
      assert d == '1' || d == '2' || d == '3' || d == '4' || d == '5' ||
             d == '6' || d == '7' || d == '8' || d == '9';
    }
  }

  /** Every reserved name starts with an upper-case letter. */
  lemma ReservedNamesStartWithLetter(x: string)
    requires IsReserved(x)
    ensures |x| > 0 && 'A' <= x[0] <= 'Z'
  {
  }

  /** Each character of `<>:"|?*` is replaced by `_`. */
  function ReplaceProhibited(s: string): (r: string)
    ensures |r| == |s|
    ensures forall i :: 0 <= i < |s| ==>
              r[i] == if s[i] in ProhibitedChars then '_' else s[i]
  {
    if |s| == 0 then ""
    else [if s[0] in ProhibitedChars then '_' else s[0]] + ReplaceProhibited(s[1..])
  }

  /** A reserved part gets a `_` prefix. */
  function GuardReserved(part: string): string
  {
    if IsReserved(part) then "_" + part else part
  }

  function GuardAll(parts: seq<string>): (r: seq<string>)
    ensures |r| == |parts|
    ensures forall i :: 0 <= i < |parts| ==> r[i] == GuardReserved(parts[i])
  {
    seq(|parts|, i requires 0 <= i < |parts| => GuardReserved(parts[i]))
  }

  /** `name.split(".")[0]`: the text before the first dot. */
  function BeforeFirstDot(name: string): string
  {
    Split(name, '.')[0]
  }

  /** `PurePosixPath(*parts)` of the parts of `s` after the trailing " ./"
      is stripped, each reserved part prefixed by `_`. */
  function GuardedPath(s: string): PurePosixPath
  {
    FromParts(GuardAll(Parts(Parse(RStrip(s, " ./")))))
  }

  /** A path whose last component's text before its first dot is reserved
      gets `_` in front of that component. */
  function GuardLastName(pp: PurePosixPath): PurePosixPath
  {
    if IsReserved(BeforeFirstDot(Name(pp))) then
      EmptyNameNotReserved(pp);
      WithName(pp, "_" + Name(pp))
    else pp
  }

  lemma EmptyNameNotReserved(p: PurePosixPath)
    requires IsReserved(BeforeFirstDot(Name(p)))
    ensures |p.parts| > 0
  {
  }

  /** The steps of `sanitize_path` after the prohibited characters are
      replaced. */
  function FinishSanitize(s: string): PurePosixPath
  {
    GuardLastName(GuardedPath(s))
  }

  /** The steps of `sanitize_path` up to the second removal of the anchor;
      `printable` stands for `str.isprintable`. */
  function AnchorFree(path: string, printable: char -> bool): PurePosixPath
  {
    // Make relative to the anchor.
    var s1 := Str(RelativeToAnchor(Parse(path)));
    // Remove unprintable characters.
    var s2 := FilterChars(s1, printable);
    // Backslashes become slashes.
    var p3 := Parse(ReplaceChar(s2, '\\', '/'));
    // The previous steps may have introduced a new root.
    if Anchor(p3) != "" then RelativeToAnchor(p3) else p3
  }

  /** `sanitize_path(path)` for a string path on a POSIX host. */
  function SanitizePath(path: string, printable: char -> bool): PurePosixPath
  {
    FinishSanitize(ReplaceProhibited(Str(AnchorFree(path, printable))))
  }
}
