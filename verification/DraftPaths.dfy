/**
 * The host's reading of a path the guest names (`safeRelativeWorkspacePath` and the containment check
 * after it), and for which paths it reads back the names the guest meant.
 */
module DraftPaths {
  import opened Options
  import opened DraftTree

  const PROMOTION_JOURNAL: Name := ".nessie-executor-promotions"

  /** The characters JavaScript's `trim` removes. */
  predicate IsSpace(c: char) {
    || c in {'\t', '\n', '\U{0B}', '\U{0C}', '\r', ' ', '\U{A0}', '\U{1680}', '\U{2028}', '\U{2029}', '\U{202F}'}
    || c in {'\U{205F}', '\U{3000}', '\U{FEFF}'}
    || '\U{2000}' <= c <= '\U{200A}'
  }

  function TrimStart(s: string): (t: string)
    ensures |t| <= |s|
    ensures t == s <==> s == "" || !IsSpace(s[0])
  {
    if s != "" && IsSpace(s[0]) then TrimStart(s[1..]) else s
  }

  function TrimEnd(s: string): (t: string)
    ensures |t| <= |s|
    ensures t == s <==> s == "" || !IsSpace(s[|s| - 1])
  {
    if s != "" && IsSpace(s[|s| - 1]) then TrimEnd(s[..|s| - 1]) else s
  }

  function Slash(c: char): char {
    if c == '\\' then '/' else c
  }

  function Slashes(s: string): string {
    seq(|s|, i requires 0 <= i < |s| => Slash(s[i]))
  }

  function Split(s: string): (parts: seq<Name>)
    ensures parts != []
    ensures forall i :: 0 <= i < |parts| ==> '/' !in parts[i] && forall c :: c in parts[i] ==> c in s
  {
    if s == "" then [""]
    else if s[0] == '/' then [""] + Split(s[1..])
    else
      var rest := Split(s[1..]);
      [[s[0]] + rest[0]] + rest[1..]
  }

  /** The separators and `.` dropped. */
  function Segments(parts: seq<Name>): (path: Path)
    ensures forall i :: 0 <= i < |path| ==> path[i] in parts && path[i] != "" && path[i] != "."
  {
    if parts == [] then []
    else if parts[0] == "" || parts[0] == "." then Segments(parts[1..])
    else [parts[0]] + Segments(parts[1..])
  }

  /** `safeRelativeWorkspacePath`; the folder itself is the empty path. */
  function SafeRelative(value: string): Attempt<Path> {
    var trimmed := TrimEnd(TrimStart(value));
    var path := if trimmed == "" then "." else trimmed;
    if '\0' in path || path[0] == '/' || path[0] == '\\' then Threw
    else
      var segments := Segments(Split(Slashes(path)));
      if ".." in segments then Threw
      else if segments != [] && segments[0] == PROMOTION_JOURNAL then Threw
      else Done(segments)
  }

  /** `isInsideDirectory` goes by the spelling: a first name that only begins with `..` counts as outside. */
  predicate SeemsOutside(path: Path) {
    path != [] && |path[0]| >= 2 && path[0][0] == '.' && path[0][1] == '.'
  }

  /** The part of `resolveWorkspaceWritePath` that looks at the spelling alone. */
  function WritePath(value: string): Attempt<Path> {
    match SafeRelative(value)
    case Threw => Threw
    case Done(path) => if path == [] || SeemsOutside(path) then Threw else Done(path)
  }

  function Join(path: Path): string {
    if path == [] then ""
    else if |path| == 1 then path[0]
    else path[0] + "/" + Join(path[1..])
  }

  predicate PlainName(name: Name) {
    && name != "" && name != "." && name != ".."
    && '/' !in name && '\\' !in name && '\0' !in name
  }

  /** What a caller can check before sending a path. */
  predicate Plain(path: Path) {
    && path != []
    && (forall i :: 0 <= i < |path| ==> PlainName(path[i]))
    && path[0] != PROMOTION_JOURNAL && !SeemsOutside(path)
    && !IsSpace(path[0][0])
    && !IsSpace(path[|path| - 1][|path[|path| - 1]| - 1])
  }

  // ------------------------------------------------------------------- lengths

  function Width(parts: seq<Name>): nat {
    if parts == [] then 0 else |parts[0]| + 1 + Width(parts[1..])
  }

  lemma {:induction false} JoinWidth(path: Path)
    requires path != []
    ensures |Join(path)| + 1 == Width(path)
  {
    if |path| > 1 {
      JoinWidth(path[1..]);
    }
  }

  lemma {:induction false} SplitWidth(s: string)
    ensures Width(Split(s)) == |s| + 1
  {
    if s != "" {
      SplitWidth(s[1..]);
      var rest := Split(s[1..]);
      if s[0] == '/' {
        assert Split(s)[1..] == rest;
      } else {
        assert Split(s)[1..] == rest[1..];
      }
    }
  }

  lemma {:induction false} SegmentsWidth(parts: seq<Name>)
    ensures Width(Segments(parts)) <= Width(parts)
  {
    if parts != [] {
      SegmentsWidth(parts[1..]);
      if parts[0] != "" && parts[0] != "." {
        assert Segments(parts)[1..] == Segments(parts[1..]);
      }
    }
  }

  // ------------------------------------------------------------------- splitting a joined path

  lemma {:induction false} SplitName(name: Name, rest: string)
    requires '/' !in name
    ensures Split(name) == [name]
    ensures Split(name + "/" + rest) == [name] + Split(rest)
  {
    if name == "" {
      assert name + "/" + rest == "/" + rest;
      assert ("/" + rest)[1..] == rest;
    } else {
      SplitName(name[1..], rest);
      assert (name + "/" + rest)[1..] == name[1..] + "/" + rest;
      assert [name[0]] + name[1..] == name;
    }
  }

  lemma {:induction false} SplitJoined(path: Path)
    requires path != [] && forall i :: 0 <= i < |path| ==> '/' !in path[i]
    ensures Split(Join(path)) == path
  {
    if |path| == 1 {
      SplitName(path[0], "");
    } else {
      SplitName(path[0], Join(path[1..]));
      SplitJoined(path[1..]);
      assert path == [path[0]] + path[1..];
    }
  }

  lemma {:induction false} SegmentsOfPlain(path: Path)
    requires forall i :: 0 <= i < |path| ==> path[i] != "" && path[i] != "."
    ensures Segments(path) == path
  {
    if path != [] {
      SegmentsOfPlain(path[1..]);
    }
  }

  lemma {:induction false} JoinedCharacters(path: Path, c: char)
    requires c != '/' && forall i :: 0 <= i < |path| ==> c !in path[i]
    ensures c !in Join(path)
  {
    if |path| > 1 {
      JoinedCharacters(path[1..], c);
    }
  }

  lemma {:induction false} JoinedEnds(path: Path)
    requires path != [] && forall i :: 0 <= i < |path| ==> path[i] != ""
    ensures Join(path) != "" && Join(path)[0] == path[0][0]
    ensures Join(path)[|Join(path)| - 1] == path[|path| - 1][|path[|path| - 1]| - 1]
  {
    if |path| > 1 {
      var rest := path[1..];
      JoinedEnds(rest);
      assert rest[|rest| - 1] == path[|path| - 1];
      EndsOfSum(path[0], Join(rest));
    }
  }

  lemma EndsOfSum(name: Name, rest: string)
    requires name != "" && rest != ""
    ensures var sum := name + "/" + rest; sum[0] == name[0] && sum[|sum| - 1] == rest[|rest| - 1]
  {
  }

  /** Nothing in a plain path's spelling is trimmed or turned. */
  lemma PlainSpelling(path: Path)
    requires Plain(path)
    ensures var value := Join(path);
            && value != "" && TrimStart(value) == value && TrimEnd(value) == value
            && '\0' !in value && value[0] != '/' && value[0] != '\\' && Slashes(value) == value
  {
    var value := Join(path);
    JoinedEnds(path);
    JoinedCharacters(path, '\\');
    JoinedCharacters(path, '\0');
    assert value[0] in path[0] && value[0] in value;
    NothingToTurn(value);
  }

  lemma NothingToTurn(value: string)
    requires '\\' !in value
    ensures Slashes(value) == value
  {
  }

  lemma PlainSegments(path: Path)
    requires Plain(path)
    ensures Segments(Split(Join(path))) == path && ".." !in path
  {
    SplitJoined(path);
    SegmentsOfPlain(path);
  }

  lemma PlainReadsBack(path: Path)
    requires Plain(path)
    ensures WritePath(Join(path)) == Done(path)
  {
    PlainSpelling(path);
    PlainSegments(path);
  }

  /** What can be read from a spelling at all: plain names, and not more of them than the spelling holds. */
  lemma NamesRead(read: string)
    requires '\0' !in read && ".." !in Segments(Split(Slashes(read)))
    ensures var path := Segments(Split(Slashes(read)));
            Width(path) <= |read| + 1 && forall i :: 0 <= i < |path| ==> PlainName(path[i])
  {
    var parts := Split(Slashes(read));
    var path := Segments(parts);
    SegmentsWidth(parts);
    SplitWidth(Slashes(read));
    forall i | 0 <= i < |path| ensures PlainName(path[i]) {
      var k :| 0 <= k < |parts| && parts[k] == path[i];
      assert forall c :: c in parts[k] ==> c in Slashes(read);
      SlashesHold(read);
    }
  }

  lemma SlashesHold(read: string)
    ensures '\\' !in Slashes(read) && ('\0' !in read ==> '\0' !in Slashes(read))
  {
    forall i | 0 <= i < |read| ensures Slashes(read)[i] != '\\' && (Slashes(read)[i] == '\0' ==> read[i] == '\0') {
    }
  }

  lemma DotIsNothing()
    ensures Segments(Split(Slashes("."))) == []
  {
    assert Slashes(".") == ".";
    SplitName(".", "");
  }

  lemma OnlyPlainReadsBack(path: Path)
    requires path != [] && WritePath(Join(path)) == Done(path)
    ensures Plain(path)
  {
    var value := Join(path);
    var trimmed := TrimEnd(TrimStart(value));
    if trimmed == "" {
      DotIsNothing();
    }
    NamesRead(trimmed);
    JoinWidth(path);
    JoinedEnds(path);
    assert trimmed == value;
  }

  /** The host reads a joined path back exactly when it is plain. */
  lemma ReadsBackExactlyPlain(path: Path)
    requires path != []
    ensures WritePath(Join(path)) == Done(path) <==> Plain(path)
  {
    if Plain(path) {
      PlainReadsBack(path);
    }
    if WritePath(Join(path)) == Done(path) {
      OnlyPlainReadsBack(path);
    }
  }

  /** Not every name a guest can create is: the host lands `" a"` at `"a"`. */
  lemma LeadingSpaceIsMisread()
    ensures WritePath(Join([" a"])) == Done(["a"])
  {
    assert TrimStart(" a") == "a" by {
      assert " a"[1..] == "a";
    }
    PlainReadsBack(["a"]);
  }

  lemma OneNameIsSafe(name: Name)
    requires PlainName(name) && name != PROMOTION_JOURNAL && !IsSpace(name[0]) && !IsSpace(name[|name| - 1])
    ensures SafeRelative(name) == Done([name])
  {
    assert name[0] in name;
    NothingToTurn(name);
    SplitName(name, "");
    SegmentsOfPlain([name]);
  }

  /** A top-level file named `..a` is legal in the guest, and the host refuses it. */
  lemma LeadingDotsAreRefused()
    ensures SafeRelative(Join(["..a"])) == Done(["..a"]) && WritePath(Join(["..a"])) == Threw
  {
    OneNameIsSafe("..a");
  }
}
