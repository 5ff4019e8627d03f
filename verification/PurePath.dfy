/** Paths of the host that writes the files: parsing, printing and joining by
    the rules of posix or Windows, wherever they run. */
module PurePaths {

  datatype Flavor = Posix | Windows {
    function Sep(): char {
      if Posix? then '/' else '\\'
    }
  }

  datatype PurePath = PurePath(flavor: Flavor, drive: string, root: string, parts: seq<string>) {
    ghost predicate Valid() {
      && AllNames(parts, flavor.Sep())
      && (flavor.Posix? ==> drive == "" && root in {"", "/", "//"})
    }
  }

  /** What `splitroot` takes a path apart into. */
  datatype Anatomy = Anatomy(drive: string, root: string, rest: string)

  /** The first `c` from place `start` on; the end of `s` if there is none. */
  function Find(s: string, c: char, start: nat): (i: nat)
    requires start <= |s|
    ensures start <= i <= |s|
    ensures forall k :: start <= k < i ==> s[k] != c
    ensures i < |s| ==> s[i] == c
    decreases |s| - start
  {
    if start == |s| || s[start] == c then start else Find(s, c, start + 1)
  }

  /** The pieces between the separators, empty ones included. */
  function Split(s: string, c: char): (pieces: seq<string>)
    ensures |pieces| > 0
    decreases |s|
  {
    var i := Find(s, c, 0);
    if i == |s| then [s] else [s[..i]] + Split(s[i + 1..], c)
  }

  function Kept(pieces: seq<string>): seq<string> {
    if pieces == [] then []
    else if pieces[0] != "" && pieces[0] != "." then [pieces[0]] + Kept(pieces[1..])
    else Kept(pieces[1..])
  }

  function Names(s: string, c: char): seq<string> {
    Kept(Split(s, c))
  }

  function JoinNames(parts: seq<string>, c: char): string {
    if parts == [] then ""
    else if |parts| == 1 then parts[0]
    else parts[0] + [c] + JoinNames(parts[1..], c)
  }

  function TrimStart(s: string, c: char): string {
    if s != "" && s[0] == c then TrimStart(s[1..], c) else s
  }

  /** Two slashes make a root of their own, unlike one, three or more. */
  function SplitPosixRoot(path: string): Anatomy {
    if !("/" <= path) then Anatomy("", "", path)
    else if !("/" <= path[1..]) || "/" <= path[2..] then Anatomy("", "/", TrimStart(path, '/'))
    else Anatomy("", "//", path[2..])
  }

  function Lower(c: char): char {
    if 'A' <= c <= 'Z' then 'a' + (c - 'A') else c
  }

  /** `\\?\UNC\` in any case. */
  predicate IsUnc(path: string) {
    |path| >= 8 && forall k :: 0 <= k < 8 ==> Lower(path[k]) == Lower("\\\\?\\UNC\\"[k])
  }

  /** A share or a device: the second backslash from `start` on ends it. */
  function SplitShare(path: string, start: nat): Anatomy
    requires start <= |path|
  {
    var index := Find(path, '\\', start);
    if index == |path| then Anatomy(path, "", "")
    else
      var index2 := Find(path, '\\', index + 1);
      if index2 == |path| then Anatomy(path, "", "") else Anatomy(path[..index2], "\\", path[index2 + 1..])
  }

  function SplitWindowsRoot(path: string): Anatomy {
    if "\\\\" <= path then SplitShare(path, if IsUnc(path) then 8 else 2)
    else if "\\" <= path then Anatomy("", "\\", path[1..])
    else if |path| >= 2 && path[1] == ':' then
      if "\\" <= path[2..] then Anatomy(path[..2], "\\", path[3..]) else Anatomy(path[..2], "", path[2..])
    else Anatomy("", "", path)
  }

  /** The root pathlib supplies to a share that nothing follows. */
  function WindowsRoot(drive: string, root: string): string {
    if root != "" || !("\\" <= drive) || drive[|drive| - 1] == '\\' then root
    else
      var parts := Split(drive, '\\');
      if |parts| == 4 && parts[2] !in ["", "?", ".", "?."] then "\\"
      else if |parts| == 6 then "\\"
      else root
  }

  function Slashed(path: string): (s: string)
    ensures |s| == |path|
  {
    seq(|path|, i requires 0 <= i < |path| => if path[i] == '/' then '\\' else path[i])
  }

  function Parse(flavor: Flavor, path: string): PurePath {
    match flavor
    case Posix =>
      var a := SplitPosixRoot(path);
      PurePath(Posix, a.drive, a.root, Names(a.rest, '/'))
    case Windows =>
      var a := SplitWindowsRoot(Slashed(path));
      PurePath(Windows, a.drive, WindowsRoot(a.drive, a.root), Names(a.rest, '\\'))
  }

  function Print(p: PurePath): string {
    if p.drive == "" && p.root == "" && p.parts == [] then "."
    else p.drive + p.root + JoinNames(p.parts, p.flavor.Sep())
  }

  function PosixJoin(path: string, segment: string): string {
    if "/" <= segment then segment
    else if path == "" || path[|path| - 1] == '/' then path + segment
    else path + "/" + segment
  }

  function Join(p: PurePath, segment: string): PurePath
    requires p.flavor.Posix?
  {
    Parse(Posix, PosixJoin(Print(p), segment))
  }

  // ---- Names ----

  predicate IsName(part: string, c: char) {
    part != "" && part != "." && c !in part
  }

  predicate AllNames(parts: seq<string>, c: char) {
    forall part :: part in parts ==> IsName(part, c)
  }

  lemma FindIs(s: string, c: char, start: nat, i: nat)
    requires start <= i < |s| && s[i] == c && forall k :: start <= k < i ==> s[k] != c
    ensures Find(s, c, start) == i
  {
  }

  lemma SplitNone(s: string, c: char)
    requires c !in s
    ensures Split(s, c) == [s]
  {
  }

  lemma SplitFirst(a: string, c: char, b: string)
    requires c !in a
    ensures Split(a + [c] + b, c) == [a] + Split(b, c)
  {
    var s := a + [c] + b;
    FindIs(s, c, 0, |a|);
    assert s[..|a|] == a && s[|a| + 1..] == b;
  }

  lemma Regrouped(a: seq<string>, b: seq<string>, c: seq<string>)
    ensures (a + b) + c == a + (b + c)
  {
  }

  lemma {:induction false} KeptConcat(a: seq<string>, b: seq<string>)
    ensures Kept(a + b) == Kept(a) + Kept(b)
  {
    if a == [] {
      assert a + b == b;
    } else {
      KeptConcat(a[1..], b);
      assert (a + b)[0] == a[0] && (a + b)[1..] == a[1..] + b;
      Regrouped([a[0]], Kept(a[1..]), Kept(b));
    }
  }

  lemma KeptOne(part: string)
    ensures Kept([part]) == if part != "" && part != "." then [part] else []
  {
    assert [part][1..] == [];
  }

  lemma {:induction false} SplitConcat(a: string, c: char, b: string)
    ensures Split(a + [c] + b, c) == Split(a, c) + Split(b, c)
    decreases |a|
  {
    var i := Find(a, c, 0);
    if i == |a| {
      SplitFirst(a, c, b);
    } else {
      SplitConcat(a[i + 1..], c, b);
      var rest := a[i + 1..] + [c] + b;
      assert a + [c] + b == a[..i] + [c] + rest;
      SplitFirst(a[..i], c, rest);
      Regrouped([a[..i]], Split(a[i + 1..], c), Split(b, c));
    }
  }

  /** The names of two paths put together with a separator. */
  lemma NamesConcat(a: string, c: char, b: string)
    ensures Names(a + [c] + b, c) == Names(a, c) + Names(b, c)
  {
    SplitConcat(a, c, b);
    KeptConcat(Split(a, c), Split(b, c));
  }

  lemma {:induction false} NamesAreNames(s: string, c: char)
    ensures AllNames(Names(s, c), c)
    decreases |s|
  {
    var i := Find(s, c, 0);
    if i == |s| {
      KeptOne(s);
    } else {
      NamesAreNames(s[i + 1..], c);
      KeptOne(s[..i]);
      KeptConcat([s[..i]], Split(s[i + 1..], c));
    }
  }

  /** Splitting undoes joining. */
  lemma {:induction false} NamesOfJoined(parts: seq<string>, c: char)
    requires AllNames(parts, c)
    ensures Names(JoinNames(parts, c), c) == parts
  {
    if parts == [] {
      SplitNone("", c);
      KeptOne("");
    } else {
      assert IsName(parts[0], c);
      SplitNone(parts[0], c);
      KeptOne(parts[0]);
      if |parts| > 1 {
        NamesOfJoined(parts[1..], c);
        NamesConcat(parts[0], c, JoinNames(parts[1..], c));
      }
    }
  }

  /** The first name opens the text. */
  lemma JoinedStarts(parts: seq<string>, c: char)
    requires parts != [] && IsName(parts[0], c)
    ensures var text := JoinNames(parts, c);
            parts[0] <= text && text != "" && text[0] != c && (|text| > |parts[0]| ==> text[|parts[0]|] == c)
  {
  }

  /** The last name closes it. */
  lemma {:induction false} JoinedEnds(parts: seq<string>, c: char)
    requires parts != [] && AllNames(parts, c)
    ensures var text := JoinNames(parts, c); text != "" && text[|text| - 1] != c
  {
    assert IsName(parts[0], c);
    if |parts| > 1 {
      JoinedEnds(parts[1..], c);
    }
  }

  lemma DotHasNoNames(c: char)
    requires c != '.'
    ensures Names(".", c) == []
  {
    SplitNone(".", c);
    KeptOne(".");
  }

  // ---- Posix ----

  lemma PosixParseValid(path: string)
    ensures Parse(Posix, path).Valid()
  {
    NamesAreNames(SplitPosixRoot(path).rest, '/');
  }

  lemma TrimNothing(s: string)
    requires !("/" <= s)
    ensures TrimStart("/" + s, '/') == s
  {
    assert ("/" + s)[1..] == s;
  }

  /** A text after a root is parsed as the names after that root. */
  lemma PosixParseRooted(root: string, rest: string)
    requires root in {"", "/", "//"} && !("/" <= rest)
    ensures Parse(Posix, root + rest) == PurePath(Posix, "", root, Names(rest, '/'))
  {
    var path := root + rest;
    if root == "" {
      assert path == rest;
    } else if root == "/" {
      assert path[1..] == rest;
      TrimNothing(rest);
    } else {
      assert path[1..] == "/" + rest && path[2..] == rest;
    }
  }

  function Slashes(n: nat): string {
    seq(n, _ => '/')
  }

  lemma {:induction false} TrimSlashes(n: nat, rest: string)
    requires !("/" <= rest)
    ensures TrimStart(Slashes(n) + rest, '/') == rest
  {
    var path := Slashes(n) + rest;
    if n == 0 {
      assert path == rest;
    } else {
      TrimSlashes(n - 1, rest);
      assert path[1..] == Slashes(n - 1) + rest;
    }
  }

  /** Leading slashes: none make no root, two make their own, and any other
      number the one root - section 4.13 of POSIX.1-2017, XBD. */
  lemma PosixRootIs(n: nat, rest: string)
    requires !("/" <= rest)
    ensures Parse(Posix, Slashes(n) + rest)
            == PurePath(Posix, "", if n == 0 then "" else if n == 2 then "//" else "/", Names(rest, '/'))
  {
    var path := Slashes(n) + rest;
    TrimSlashes(n, rest);
    if n == 0 {
      assert path == rest;
    } else if n == 1 {
      assert path[1..] == rest;
    } else if n == 2 {
      assert path[1..][0] == '/' && path[2..] == rest;
    } else {
      assert path[1..][0] == '/' && path[2..][0] == '/';
    }
  }

  /** The printed text of a posix path, taken apart. */
  lemma PosixText(p: PurePath) returns (rest: string)
    requires p.flavor.Posix? && p.Valid()
    ensures Print(p) == p.root + rest && !("/" <= rest) && Names(rest, '/') == p.parts
    ensures rest == "" <==> p.root != "" && p.parts == []
    ensures rest != "" ==> rest[|rest| - 1] != '/'
  {
    if p.root == "" && p.parts == [] {
      rest := ".";
      DotHasNoNames('/');
    } else {
      rest := JoinNames(p.parts, '/');
      NamesOfJoined(p.parts, '/');
      if p.parts != [] {
        JoinedStarts(p.parts, '/');
        JoinedEnds(p.parts, '/');
      }
    }
  }

  /** Parsing undoes printing, for every posix path there is. */
  lemma PosixRoundTrip(path: string)
    ensures Parse(Posix, Print(Parse(Posix, path))) == Parse(Posix, path)
  {
    PosixParseValid(path);
    PosixReparse(Parse(Posix, path));
  }

  lemma PosixReparse(p: PurePath)
    requires p.flavor.Posix? && p.Valid()
    ensures Parse(Posix, Print(p)) == p
  {
    var rest := PosixText(p);
    PosixParseRooted(p.root, rest);
  }

  lemma PosixJoinText(root: string, rest: string, segment: string)
    requires !("/" <= segment) && root in {"", "/", "//"} && root + rest != ""
    requires rest != "" ==> rest[|rest| - 1] != '/'
    ensures PosixJoin(root + rest, segment) == root + (if rest == "" then segment else rest + "/" + segment)
  {
    var text := root + rest;
    if rest == "" {
      assert text == root && text[|text| - 1] == '/';
    } else {
      assert text[|text| - 1] == rest[|rest| - 1];
      assert text + "/" + segment == root + (rest + "/" + segment);
    }
  }

  /** A relative segment keeps the root and appends its names. */
  lemma JoinRelative(p: PurePath, segment: string)
    requires p.flavor.Posix? && p.Valid() && !("/" <= segment)
    ensures Join(p, segment) == p.(parts := p.parts + Names(segment, '/'))
  {
    var rest := PosixText(p);
    var text := if rest == "" then segment else rest + "/" + segment;
    PosixJoinText(p.root, rest, segment);
    assert Join(p, segment) == Parse(Posix, p.root + text);
    PosixParseRooted(p.root, text);
    if rest != "" {
      NamesConcat(rest, '/', segment);
    } else {
      assert p.parts + Names(text, '/') == Names(text, '/');
    }
  }

  /** An absolute one is the path. */
  lemma JoinAbsolute(p: PurePath, segment: string)
    requires p.flavor.Posix? && "/" <= segment
    ensures Join(p, segment) == Parse(Posix, segment)
  {
  }

  /** A segment is relative exactly when what it parses to is. */
  lemma PosixRelative(segment: string)
    ensures Parse(Posix, segment).Valid()
    ensures Parse(Posix, segment).root == "" <==> !("/" <= segment)
    ensures !("/" <= segment) ==> Parse(Posix, segment) == PurePath(Posix, "", "", Names(segment, '/'))
  {
    PosixParseValid(segment);
  }

  lemma PrintedRoot(p: PurePath)
    requires p.flavor.Posix? && p.Valid()
    ensures p.root != "" <==> "/" <= Print(p)
    ensures p.root == "" ==> Names(Print(p), '/') == p.parts
  {
    var rest := PosixText(p);
    assert "" + rest == rest;
  }

  /** Joining with a printed path: its root decides. */
  lemma JoinPath(p: PurePath, q: PurePath)
    requires p.flavor.Posix? && q.flavor.Posix? && p.Valid() && q.Valid()
    ensures Join(p, Print(q)) == if q.root != "" then q else p.(parts := p.parts + q.parts)
  {
    PrintedRoot(q);
    if q.root != "" {
      JoinAbsolute(p, Print(q));
      PosixReparse(q);
    } else {
      JoinRelative(p, Print(q));
    }
  }

  lemma JoinValid(p: PurePath, segment: string)
    requires p.flavor.Posix?
    ensures Join(p, segment).flavor.Posix? && Join(p, segment).Valid()
  {
    PosixParseValid(PosixJoin(Print(p), segment));
  }

  lemma JoinTwoRelative(p: PurePath, a: string, b: string)
    requires p.flavor.Posix? && p.Valid() && !("/" <= a) && !("/" <= b)
    ensures Join(Join(p, a), b) == p.(parts := p.parts + (Names(a, '/') + Names(b, '/')))
  {
    var q := Join(p, a);
    JoinValid(p, a);
    JoinRelative(p, a);
    JoinRelative(q, b);
    Regrouped(p.parts, Names(a, '/'), Names(b, '/'));
  }

  lemma RelativeJoined(a: string, b: string)
    requires !("/" <= a) && !("/" <= b)
    ensures Join(Parse(Posix, a), b) == PurePath(Posix, "", "", Names(a, '/') + Names(b, '/'))
  {
    PosixRelative(a);
    JoinRelative(Parse(Posix, a), b);
  }

  lemma JoinToAbsolute(a: string, b: string)
    requires "/" <= a || "/" <= b
    ensures Join(Parse(Posix, a), b).root != ""
  {
    PosixRelative(a);
    PosixRelative(b);
    if "/" <= b {
      JoinAbsolute(Parse(Posix, a), b);
    } else {
      JoinRelative(Parse(Posix, a), b);
    }
  }

  /** `p / a / b == p / (a / b)` for all segments. */
  lemma JoinAssociative(p: PurePath, a: string, b: string)
    requires p.flavor.Posix? && p.Valid()
    ensures Join(Join(p, a), b) == Join(p, Print(Join(Parse(Posix, a), b)))
  {
    JoinValid(Parse(Posix, a), b);
    JoinPath(p, Join(Parse(Posix, a), b));
    if "/" <= b {
      JoinToAbsolute(a, b);
      JoinAbsolute(Join(p, a), b);
      JoinAbsolute(Parse(Posix, a), b);
    } else if "/" <= a {
      JoinToAbsolute(a, b);
      JoinAbsolute(p, a);
    } else {
      JoinTwoRelative(p, a, b);
      RelativeJoined(a, b);
    }
  }

  // ---- Windows ----

  /** The one form printing hides: the first name looks like a drive. */
  predicate LooksDriven(p: PurePath) {
    p.drive == "" && p.root == "" && p.parts != [] && |p.parts[0]| >= 2 && p.parts[0][1] == ':'
  }

  predicate Unslashed(s: string) {
    '/' !in s
  }

  predicate AllUnslashed(parts: seq<string>) {
    forall part :: part in parts ==> Unslashed(part)
  }

  lemma SlashedIsUnslashed(path: string)
    ensures Unslashed(Slashed(path))
    ensures Unslashed(path) ==> Slashed(path) == path
  {
  }

  lemma {:induction false} KeptUnslashed(pieces: seq<string>)
    requires AllUnslashed(pieces)
    ensures AllUnslashed(Kept(pieces))
  {
    if pieces != [] {
      KeptUnslashed(pieces[1..]);
    }
  }

  lemma {:induction false} SplitUnslashed(s: string, c: char)
    requires Unslashed(s)
    ensures AllUnslashed(Split(s, c))
    decreases |s|
  {
    var i := Find(s, c, 0);
    if i < |s| {
      SplitUnslashed(s[i + 1..], c);
    }
  }

  lemma {:induction false} JoinedUnslashed(parts: seq<string>, c: char)
    requires c != '/' && AllUnslashed(parts)
    ensures Unslashed(JoinNames(parts, c))
  {
    if parts != [] {
      assert Unslashed(parts[0]);
    }
    if |parts| > 1 {
      JoinedUnslashed(parts[1..], c);
    }
  }

  /** What printing writes of a Windows path has no `/` left. */
  lemma WindowsTextUnslashed(path: string)
    ensures Unslashed(Print(Parse(Windows, path)))
  {
    var s := Slashed(path);
    SlashedIsUnslashed(path);
    var a := SplitWindowsRoot(s);
    assert Unslashed(a.drive) && Unslashed(a.rest);
    SplitUnslashed(a.rest, '\\');
    KeptUnslashed(Split(a.rest, '\\'));
    JoinedUnslashed(Names(a.rest, '\\'), '\\');
  }

  lemma UncBackslashes(path: string)
    ensures IsUnc(path) ==> path[0] == path[1] == path[3] == path[7] == '\\' && path[2] == '?'
    ensures IsUnc(path) ==> path[4] != '\\' && path[5] != '\\' && path[6] != '\\'
  {
    if IsUnc(path) {
      var unc := "\\\\?\\UNC\\";
      forall k | 0 <= k < 8 ensures Lower(path[k]) == Lower(unc[k]) {
      }
      assert Lower(path[0]) == '\\' && Lower(path[1]) == '\\' && Lower(path[2]) == '?' && Lower(path[3]) == '\\';
      assert Lower(path[4]) == 'u' && Lower(path[5]) == 'n' && Lower(path[6]) == 'c' && Lower(path[7]) == '\\';
    }
  }

  lemma UncShared(path: string, again: string, n: nat)
    requires n <= |path| && n <= |again| && forall k :: 0 <= k < n ==> again[k] == path[k]
    requires n >= 8
    ensures IsUnc(again) <==> IsUnc(path)
  {
  }

  /** Two backslashes, then two names, each up to a backslash. */
  ghost predicate ShareBounds(path: string, index: nat, end: nat) {
    var start := if IsUnc(path) then 8 else 2;
    && "\\\\" <= path && start <= index < end < |path| && path[index] == path[end] == '\\'
    && (forall k :: start <= k < index ==> path[k] != '\\')
    && forall k :: index < k < end ==> path[k] != '\\'
  }

  lemma ShareBoundsOf(path: string) returns (index: nat, end: nat)
    requires "\\\\" <= path && SplitWindowsRoot(path).root == "\\"
    ensures ShareBounds(path, index, end) && SplitWindowsRoot(path).drive == path[..end]
  {
    var start := if IsUnc(path) then 8 else 2;
    index := Find(path, '\\', start);
    end := Find(path, '\\', index + 1);
  }

  lemma ShareBounded(path: string, index: nat, end: nat)
    requires ShareBounds(path, index, end)
    ensures SplitWindowsRoot(path) == Anatomy(path[..end], "\\", path[end + 1..])
  {
    FindIs(path, '\\', if IsUnc(path) then 8 else 2, index);
    FindIs(path, '\\', index + 1, end);
  }

  /** Texts alike up to the end of a share are both such devices or neither. */
  lemma ShareUnc(path: string, again: string, index: nat, end: nat)
    requires ShareBounds(path, index, end) && end < |again| && forall k :: 0 <= k <= end ==> again[k] == path[k]
    ensures IsUnc(again) <==> IsUnc(path)
  {
    if end >= 7 {
      UncShared(path, again, end + 1);
    } else {
      UncBackslashes(again);
      UncBackslashes(path);
    }
  }

  /** A share or device drive keeps its bounds whatever follows its root. */
  lemma ShareSplitsAgain(path: string, tail: string)
    requires "\\\\" <= path && SplitWindowsRoot(path).root == "\\"
    ensures var drive := SplitWindowsRoot(path).drive;
            SplitWindowsRoot(drive + "\\" + tail) == Anatomy(drive, "\\", tail)
  {
    var index, end := ShareBoundsOf(path);
    var drive := path[..end];
    var again := drive + "\\" + tail;
    assert forall k :: 0 <= k <= end ==> again[k] == path[k];
    ShareUnc(path, again, index, end);
    ShareBounded(again, index, end);
    assert again[..end] == drive && again[end + 1..] == tail;
  }

  /** `\\\\server\\share` is the drive of what lies below it. */
  lemma ShareSplits(server: string, share: string, rest: string)
    requires '\\' !in server && '\\' !in share && server != "?"
    ensures SplitWindowsRoot("\\\\" + server + "\\" + share + "\\" + rest)
            == Anatomy("\\\\" + server + "\\" + share, "\\", rest)
  {
    var drive := "\\\\" + server + "\\" + share;
    var path := drive + "\\" + rest;
    var index := 2 + |server|;
    assert path[2..index] == server && path[index] == '\\' && path[index + 1..|drive|] == share && path[|drive|] == '\\';
    assert path[..|drive|] == drive && path[|drive| + 1..] == rest;
    UncBackslashes(path);
    assert forall k :: 2 <= k < index ==> path[k] == server[k - 2];
    assert |server| == 1 && path[2] == '?' ==> server == "?";
    assert forall k :: index + 1 <= k < |drive| ==> path[k] == share[k - index - 1];
    ShareBounded(path, index, |drive|);
    assert "\\\\" + server + "\\" + share + "\\" + rest == path;
  }

  /** And so is `\\?\\UNC\\server\\share`, in any case. */
  lemma UncSplits(prefix: string, server: string, share: string, rest: string)
    requires |prefix| == 8 && IsUnc(prefix) && '\\' !in server && '\\' !in share
    ensures SplitWindowsRoot(prefix + server + "\\" + share + "\\" + rest)
            == Anatomy(prefix + server + "\\" + share, "\\", rest)
  {
    var drive := prefix + server + "\\" + share;
    var path := drive + "\\" + rest;
    var index := 8 + |server|;
    assert path[..8] == prefix && path[8..index] == server && path[index] == '\\';
    assert path[index + 1..|drive|] == share && path[|drive|] == '\\';
    assert path[..|drive|] == drive && path[|drive| + 1..] == rest;
    UncBackslashes(prefix);
    UncShared(prefix, path, 8);
    assert forall k :: 8 <= k < index ==> path[k] == server[k - 8];
    assert forall k :: index + 1 <= k < |drive| ==> path[k] == share[k - index - 1];
    ShareBounded(path, index, |drive|);
    assert prefix + server + "\\" + share + "\\" + rest == path;
  }

  // ---- Which drives are absolute alone ----

  /** Exactly this prefix, in any case. */
  lemma IsUncIff(path: string)
    ensures IsUnc(path) <==>
              && |path| >= 8 && path[0] == path[1] == path[3] == path[7] == '\\' && path[2] == '?'
              && path[4] in {'U', 'u'} && path[5] in {'N', 'n'} && path[6] in {'C', 'c'}
  {
    var unc := "\\\\?\\UNC\\";
    assert |unc| == 8;
    if |path| >= 8 {
      LowerIs(path[0], '\\');
      LowerIs(path[1], '\\');
      LowerIs(path[2], '?');
      LowerIs(path[3], '\\');
      LowerIs(path[4], 'U');
      LowerIs(path[5], 'N');
      LowerIs(path[6], 'C');
      LowerIs(path[7], '\\');
      assert IsUnc(path) <==>
        (&& Lower(path[0]) == Lower(unc[0]) && Lower(path[1]) == Lower(unc[1])
         && Lower(path[2]) == Lower(unc[2]) && Lower(path[3]) == Lower(unc[3])
         && Lower(path[4]) == Lower(unc[4]) && Lower(path[5]) == Lower(unc[5])
         && Lower(path[6]) == Lower(unc[6]) && Lower(path[7]) == Lower(unc[7]));
    }
  }

  /** Letters alone have two cases. */
  lemma LowerIs(c: char, d: char)
    requires d in {'\\', '?', 'U', 'N', 'C'}
    ensures Lower(c) == Lower(d) <==>
              c == d || (d == 'U' && c == 'u') || (d == 'N' && c == 'n') || (d == 'C' && c == 'c')
  {
  }

  /** `\\\\server\\share` has a root of its own unless it has no share, or the
      server is none: `?`, `.`, `?.` or nothing. */
  lemma BareShareRoot(server: string, share: string)
    requires '\\' !in server && '\\' !in share
    ensures WindowsRoot("\\\\" + server + "\\" + share, "")
            == if share != "" && server !in ["", "?", ".", "?."] then "\\" else ""
  {
    var drive := "\\\\" + server + "\\" + share;
    SplitPieces(server, share);
    if share != "" {
      assert drive[|drive| - 1] == share[|share| - 1];
    }
  }

  lemma SplitPieces(server: string, share: string)
    requires '\\' !in server && '\\' !in share
    ensures Split("\\\\" + server + "\\" + share, '\\') == ["", "", server, share]
  {
    var drive := "\\\\" + server + "\\" + share;
    var rest := server + ['\\'] + share;
    BarePieces(drive);
    assert drive[2..] == rest;
    SplitFirst(server, '\\', share);
    SplitNone(share, '\\');
  }

  /** So has a share behind that prefix. */
  lemma UncRoot(prefix: string, server: string, share: string)
    requires |prefix| == 8 && IsUnc(prefix) && '\\' !in server && '\\' !in share
    ensures WindowsRoot(prefix + server + "\\" + share, "") == if share != "" then "\\" else ""
  {
    var drive := prefix + server + "\\" + share;
    UncPieces(prefix, server + ['\\'] + share);
    assert drive == prefix + (server + ['\\'] + share);
    SplitFirst(server, '\\', share);
    SplitNone(share, '\\');
    UncBackslashes(prefix);
    assert drive[0] == prefix[0];
    if share != "" {
      assert drive[|drive| - 1] == share[|share| - 1];
    }
  }

  lemma UncPieces(prefix: string, rest: string)
    requires |prefix| == 8 && IsUnc(prefix)
    ensures Split(prefix + rest, '\\') == ["", "", "?", prefix[4..7]] + Split(rest, '\\')
  {
    var unc, all := prefix[4..7], prefix + rest;
    UncBackslashes(prefix);
    assert unc == [prefix[4], prefix[5], prefix[6]];
    BarePieces(all);
    SplitFirst(unc, '\\', rest);
    assert all[2..] == ['?'] + ['\\'] + (unc + ['\\'] + rest);
    SplitFirst(['?'], '\\', unc + ['\\'] + rest);
  }

  /** No other drive is given a root, and none that has one another. */
  lemma OtherRoots(drive: string, root: string)
    ensures root != "" ==> WindowsRoot(drive, root) == root
    ensures !("\\" <= drive) ==> WindowsRoot(drive, root) == root
    ensures |Split(drive, '\\')| !in {4, 6} ==> WindowsRoot(drive, root) == root
  {
  }

  lemma SplitUncons(s: string)
    requires "\\" <= s
    ensures Split(s, '\\') == [""] + Split(s[1..], '\\')
  {
    assert s == "" + ['\\'] + s[1..];
    SplitFirst("", '\\', s[1..]);
  }

  lemma BareReassembled(drive: string, start: nat)
    requires "\\\\" <= drive && start <= |drive| && start == if IsUnc(drive) then 8 else 2
    requires Find(drive, '\\', start) < |drive| && Find(drive, '\\', Find(drive, '\\', start) + 1) == |drive|
    requires IsUnc(drive + "\\") <==> IsUnc(drive)
    ensures SplitWindowsRoot(drive + "\\") == Anatomy(drive, "\\", "")
  {
    var again := drive + "\\";
    var index := Find(drive, '\\', start);
    assert forall k :: 0 <= k < |drive| ==> again[k] == drive[k];
    FindIs(again, '\\', start, index);
    FindIs(again, '\\', index + 1, |drive|);
    assert again[..|drive|] == drive && again[|drive| + 1..] == "";
  }

  /** The two kinds of drive that are absolute alone. */
  lemma BareKinds(drive: string)
    requires "\\\\" <= drive && WindowsRoot(drive, "") == "\\"
    ensures var pieces := Split(drive[2..], '\\');
            |pieces| == 4 || (|pieces| == 2 && pieces[0] !in ["", "?", ".", "?."])
  {
    BarePieces(drive);
    assert Split(drive, '\\')[2] == Split(drive[2..], '\\')[0];
  }

  lemma BareFinds(drive: string, start: nat)
    requires start <= |drive| && SplitShare(drive, start).root == ""
    ensures var index := Find(drive, '\\', start);
            index < |drive| ==> Find(drive, '\\', index + 1) == |drive|
  {
  }

  /** A drive without a root that is absolute alone: adding the root back
      gives that drive and that root. */
  lemma BareShareSplitsAgain(drive: string)
    requires "\\\\" <= drive && SplitWindowsRoot(drive) == Anatomy(drive, "", "") && WindowsRoot(drive, "") == "\\"
    ensures SplitWindowsRoot(drive + "\\") == Anatomy(drive, "\\", "")
  {
    BareKinds(drive);
    BareFinds(drive, if IsUnc(drive) then 8 else 2);
    if |Split(drive[2..], '\\')| == 2 {
      BareShareOfFour(drive);
      BareReassembled(drive, 2);
    } else {
      BareShareOfSix(drive);
      BareReassembled(drive, 8);
    }
  }

  lemma BarePieces(drive: string)
    requires "\\\\" <= drive
    ensures Split(drive, '\\') == ["", ""] + Split(drive[2..], '\\')
  {
    SplitUncons(drive);
    SplitUncons(drive[1..]);
    assert drive[1..][1..] == drive[2..];
  }

  /** The first piece, and where it ends. */
  lemma FirstPiece(s: string, c: char)
    requires |Split(s, c)| >= 2
    ensures var i := Find(s, c, 0); i < |s| && Split(s, c)[0] == s[..i] && Split(s, c)[1..] == Split(s[i + 1..], c)
  {
  }

  lemma BareShareOfFour(drive: string)
    requires "\\\\" <= drive
    requires |Split(drive[2..], '\\')| == 2 && Split(drive[2..], '\\')[0] !in ["", "?", ".", "?."]
    ensures !IsUnc(drive) && !IsUnc(drive + "\\") && Find(drive, '\\', 2) < |drive|
  {
    var t, again := drive[2..], drive + "\\";
    FirstPiece(t, '\\');
    var i := Find(t, '\\', 0);
    assert drive[i + 2] == t[i];
    UncBackslashes(drive);
    UncBackslashes(again);
    assert |drive| >= 4 && drive[2] == again[2] == t[0];
    assert i == 1 ==> t[..1] == [t[0]];
    assert i == 1 ==> t[0] != '?';
    assert drive[3] == t[1];
    assert again[3] == drive[3];
  }

  /** The next separator from `start` on, and the pieces after it. */
  lemma NextFound(t: string, c: char, start: nat) returns (x: nat)
    requires start <= |t| && |Split(t[start..], c)| >= 2
    ensures start <= x < |t| && t[x] == c && forall m :: start <= m < x ==> t[m] != c
    ensures |Split(t[x + 1..], c)| == |Split(t[start..], c)| - 1
  {
    var u := t[start..];
    FirstPiece(u, c);
    var i := Find(u, c, 0);
    x := start + i;
    assert forall m :: start <= m < |t| ==> t[m] == u[m - start];
    assert u[i + 1..] == t[x + 1..];
  }

  lemma ThreeInDrive(drive: string) returns (x: nat, y: nat, z: nat)
    requires "\\\\" <= drive && |Split(drive[2..], '\\')| >= 4
    ensures 2 <= x < y < z < |drive| && drive[x] == drive[y] == drive[z] == '\\'
    ensures forall m :: 2 <= m < y && m != x ==> drive[m] != '\\'
  {
    x := NextFound(drive, '\\', 2);
    y := NextFound(drive, '\\', x + 1);
    z := NextFound(drive, '\\', y + 1);
  }

  lemma FindAtMost(s: string, c: char, start: nat, k: nat)
    requires start <= k < |s| && s[k] == c
    ensures Find(s, c, start) <= k
  {
  }

  lemma BareShareOfSix(drive: string)
    requires "\\\\" <= drive && SplitWindowsRoot(drive).root == "" && |Split(drive[2..], '\\')| >= 4
    ensures IsUnc(drive) && IsUnc(drive + "\\") && Find(drive, '\\', 8) < |drive|
  {
    var x, y, z := ThreeInDrive(drive);
    TwoFound(drive, x, y);
    UncBackslashes(drive);
    UncShared(drive, drive + "\\", |drive|);
    assert y >= 7;
    FindAtMost(drive, '\\', 8, z);
  }

  /** Two backslashes past the first two end a drive that is not UNC. */
  lemma TwoFound(drive: string, x: nat, y: nat)
    requires "\\\\" <= drive && 2 <= x < y < |drive| && drive[x] == drive[y] == '\\'
    requires forall m :: 2 <= m < x ==> drive[m] != '\\'
    requires SplitWindowsRoot(drive).root == ""
    ensures IsUnc(drive)
  {
    FindIs(drive, '\\', 2, x);
  }

  lemma WindowsParseNames(path: string)
    ensures AllNames(Parse(Windows, path).parts, '\\')
  {
    NamesAreNames(SplitWindowsRoot(Slashed(path)).rest, '\\');
  }

  /** The forms a Windows path that is no share or device splits into. */
  lemma PlainForms(s: string)
    requires !("\\\\" <= s)
    ensures var a := SplitWindowsRoot(s);
            && WindowsRoot(a.drive, a.root) == a.root && a.root in {"", "\\"}
            && (a.drive == "" || (|a.drive| == 2 && a.drive[0] != '\\' && a.drive[1] == ':'))
  {
  }

  /** Such a form, printed before a text that starts with no backslash. */
  lemma PlainSplitsAgain(drive: string, root: string, text: string)
    requires root in {"", "\\"} && !("\\" <= text)
    requires drive == "" || (|drive| == 2 && drive[0] != '\\' && drive[1] == ':')
    requires drive == "" && root == "" ==> !(|text| >= 2 && text[1] == ':')
    ensures SplitWindowsRoot(drive + root + text) == Anatomy(drive, root, text)
  {
    var s := drive + root + text;
    if drive != "" {
      assert s[0] == drive[0] && s[1] == ':' && s[..2] == drive && s[2..] == root + text;
      assert root != "" ==> s[3..] == text;
    } else if root != "" {
      assert s[1..] == text;
    } else {
      assert s == text;
    }
  }

  /** What a share or device path prints splits into its drive and root. */
  lemma SharePathSplitsAgain(s: string, text: string)
    requires "\\\\" <= s
    requires SplitWindowsRoot(s).root == "" ==> text == ""
    ensures var a := SplitWindowsRoot(s);
            var root := WindowsRoot(a.drive, a.root);
            var b := SplitWindowsRoot(a.drive + root + text);
            a.drive != "" && b.drive == a.drive && WindowsRoot(b.drive, b.root) == root && b.rest == text
  {
    var a := SplitWindowsRoot(s);
    if a.root == "\\" {
      ShareSplitsAgain(s, text);
    } else if WindowsRoot(s, "") == "\\" {
      BareShareSplitsAgain(s);
      assert s + "\\" + "" == s + "\\";
    } else {
      assert s + "" + "" == s;
    }
  }

  lemma BareDrive(s: string)
    requires "\\\\" <= s && SplitWindowsRoot(s).root == ""
    ensures Names(SplitWindowsRoot(s).rest, '\\') == []
  {
    SplitNone("", '\\');
    KeptOne("");
  }

  /** The parts of a Windows path, split off its printed text again. */
  lemma WindowsSplitsAgain(path: string)
    requires !LooksDriven(Parse(Windows, path))
    ensures var p := Parse(Windows, path);
            var a := SplitWindowsRoot(Print(p));
            a.drive == p.drive && WindowsRoot(a.drive, a.root) == p.root && Names(a.rest, '\\') == p.parts
  {
    var s := Slashed(path);
    var a := SplitWindowsRoot(s);
    var p := Parse(Windows, path);
    var text := JoinNames(p.parts, '\\');
    WindowsParseNames(path);
    NamesOfJoined(p.parts, '\\');
    if "\\\\" <= s {
      if a.root == "" {
        BareDrive(s);
      }
      SharePathSplitsAgain(s, text);
    } else {
      PlainForms(s);
      if p.parts != [] {
        JoinedStarts(p.parts, '\\');
      }
      if p.drive == "" && p.root == "" && p.parts == [] {
        DotHasNoNames('\\');
        assert SplitWindowsRoot(".") == Anatomy("", "", ".");
      } else {
        PlainSplitsAgain(p.drive, p.root, text);
      }
    }
  }

  /** Parsing undoes printing for exactly the Windows paths whose first name,
      with no drive or root before it, does not look like a drive. */
  lemma WindowsRoundTrip(path: string)
    ensures Parse(Windows, Print(Parse(Windows, path))) == Parse(Windows, path)
            <==> !LooksDriven(Parse(Windows, path))
  {
    var p := Parse(Windows, path);
    WindowsTextUnslashed(path);
    SlashedIsUnslashed(Print(p));
    WindowsParseNames(path);
    if LooksDriven(p) {
      JoinedStarts(p.parts, '\\');
      assert SplitWindowsRoot(Print(p)).drive != "";
    } else {
      WindowsSplitsAgain(path);
    }
  }

  /** Such a path: `.\c:x`, which prints as `c:x`. */
  lemma DriveAppears()
    ensures Parse(Windows, ".\\c:x") == PurePath(Windows, "", "", ["c:x"]) && LooksDriven(Parse(Windows, ".\\c:x"))
  {
    SlashedIsUnslashed(".\\c:x");
    DotDriveNames();
    DotDriveSplits();
  }

  lemma DotDriveSplits()
    ensures SplitWindowsRoot(".\\c:x") == Anatomy("", "", ".\\c:x")
  {
    var s := ".\\c:x";
    assert s[0] == '.' && s[1] == '\\';
  }

  lemma DotDriveNames()
    ensures Names(".\\c:x", '\\') == ["c:x"]
  {
    DotHasNoNames('\\');
    SplitNone("c:x", '\\');
    KeptOne("c:x");
    NamesConcat(".", '\\', "c:x");
    assert "." + ['\\'] + "c:x" == ".\\c:x";
  }
}
