/**
 * The request router: from an HTTP method and a path to the addressed
 * resource and its captures, or to a routing error.
 *
 * Paths have five shapes, each optionally followed by either one trailing
 * `/` or a `.extension`:
 *   /status
 *   /users/{publicKey}
 *   /users/{publicKey}/images
 *   /users/{publicKey}/images/{imageIdentifier}
 *   /users/{publicKey}/images/{imageIdentifier}/meta
 */
module Router {
  import opened Wrappers
  import opened Requests

  datatype Resource = Status | User | Images | Image | Metadata

  /** The resource name written onto the request. */
  function ResourceName(r: Resource): string
  {
    match r
    case Status => "status"
    case User => "user"
    case Images => "images"
    case Image => "image"
    case Metadata => "metadata"
  }

  /** A resolved request: the resource and whatever the path captured. */
  datatype Target = Target(
    resource: Resource, publicKey: Option<string>, imageIdentifier: Option<string>, extension: Option<string>)

  datatype RoutingError = RoutingError(code: int, message: string)

  datatype Outcome = Resolved(target: Target) | Failed(error: RoutingError)

  const Teapot := RoutingError(418, "I'm a teapot")
  const UnsupportedMethod := RoutingError(501, "Unsupported HTTP method")
  const NotFound := RoutingError(404, "Not Found")

  /** The methods the router accepts; BREW is answered before this list is consulted. */
  const SupportedMethods: set<string> := {"GET", "POST", "PUT", "DELETE", "HEAD", "OPTIONS"}

  // ---------------------------------------------------------------------
  // Character classes
  // ---------------------------------------------------------------------

  /** Public keys use lower-case letters, digits, `_` and `-`; upper case is not folded. */
  predicate PublicKeyChar(c: char)
  {
    ('a' <= c <= 'z') || ('0' <= c <= '9') || c == '_' || c == '-'
  }

  predicate IsPublicKey(s: string)
  {
    |s| > 0 && forall i :: 0 <= i < |s| ==> PublicKeyChar(s[i])
  }

  predicate HexChar(c: char)
  {
    ('0' <= c <= '9') || ('a' <= c <= 'f')
  }

  /** Image identifiers are 32 lower-case hexadecimal characters. */
  predicate IsImageIdentifier(s: string)
  {
    |s| == 32 && forall i :: 0 <= i < |s| ==> HexChar(s[i])
  }

  /** An extension is non-empty and holds neither `/` nor `.`. */
  predicate IsExtension(s: string)
  {
    |s| > 0 && forall i :: 0 <= i < |s| ==> s[i] != '/' && s[i] != '.'
  }

  /** The captures a resource carries, and that they are well formed. */
  predicate WellFormed(t: Target)
  {
    && (t.extension.Some? ==> IsExtension(t.extension.value))
    && (t.resource == Status <==> t.publicKey.None?)
    && (t.publicKey.Some? ==> IsPublicKey(t.publicKey.value))
    && (t.resource in {Image, Metadata} <==> t.imageIdentifier.Some?)
    && (t.imageIdentifier.Some? ==> IsImageIdentifier(t.imageIdentifier.value))
  }

  // ---------------------------------------------------------------------
  // Segments
  // ---------------------------------------------------------------------

  /** The pieces of `s` between its `/` characters. */
  function Split(s: string): (parts: seq<string>)
    ensures |parts| > 0
    ensures forall k :: 0 <= k < |parts| ==> '/' !in parts[k]
  {
    if |s| == 0 then [""]
    else if s[0] == '/' then [""] + Split(s[1..])
    else
      var rest := Split(s[1..]);
      [[s[0]] + rest[0]] + rest[1..]
  }

  /** The pieces joined with `/` between them. */
  function Join(parts: seq<string>): string
    requires |parts| > 0
  {
    if |parts| == 1 then parts[0] else parts[0] + "/" + Join(parts[1..])
  }

  /** The position of the last `c` in `s`, if any. */
  function LastIndexOf(s: string, c: char): (r: Option<nat>)
    ensures r.Some? ==> r.value < |s| && s[r.value] == c && forall j :: r.value < j < |s| ==> s[j] != c
    ensures r.None? ==> forall j :: 0 <= j < |s| ==> s[j] != c
  {
    if |s| == 0 then None
    else if s[|s| - 1] == c then Some(|s| - 1)
    else LastIndexOf(s[..|s| - 1], c)
  }

  // ---------------------------------------------------------------------
  // Matching
  // ---------------------------------------------------------------------

  /** The five shapes, on the segments after the leading `/`. */
  function MatchSegments(segs: seq<string>, ext: Option<string>): Option<Target>
  {
    if segs == ["status"] then Some(Target(Status, None, None, ext))
    else if |segs| < 2 || segs[0] != "users" || !IsPublicKey(segs[1]) then None
    else if |segs| == 2 then Some(Target(User, Some(segs[1]), None, ext))
    else if segs[2] != "images" then None
    else if |segs| == 3 then Some(Target(Images, Some(segs[1]), None, ext))
    else if !IsImageIdentifier(segs[3]) then None
    else if |segs| == 4 then Some(Target(Image, Some(segs[1]), Some(segs[3]), ext))
    else if |segs| == 5 && segs[4] == "meta" then Some(Target(Metadata, Some(segs[1]), Some(segs[3]), ext))
    else None
  }

  /** A path without its suffix: it must start with `/`. */
  function MatchBase(base: string, ext: Option<string>): Option<Target>
  {
    if |base| > 0 && base[0] == '/' then MatchSegments(Split(base[1..]), ext) else None
  }

  /**
   * A path: one trailing `/` is dropped (and then no extension may precede
   * it); otherwise whatever follows the last `.` is the extension.
   */
  function MatchPath(path: string): Option<Target>
  {
    if |path| > 0 && path[|path| - 1] == '/' then MatchBase(path[..|path| - 1], None)
    else match LastIndexOf(path, '.')
      case None => MatchBase(path, None)
      case Some(i) =>
        if IsExtension(path[i + 1..]) then MatchBase(path[..i], Some(path[i + 1..])) else None
  }

  /**
   * The router: BREW is a teapot and any other unsupported method is refused
   * before the path is looked at; a path of none of the five shapes is not found.
   */
  function Resolve(verb: string, path: string): (r: Outcome)
    ensures verb == "BREW" ==> r == Failed(Teapot)
    ensures verb != "BREW" && verb !in SupportedMethods ==> r == Failed(UnsupportedMethod)
    ensures r.Failed? ==> r.error in {Teapot, UnsupportedMethod, NotFound}
    ensures r.Resolved? ==> verb in SupportedMethods && WellFormed(r.target) && Spells(r.target, path)
  {
    if verb == "BREW" then Failed(Teapot)
    else if verb !in SupportedMethods then Failed(UnsupportedMethod)
    else match MatchPath(path)
      case None => Failed(NotFound)
      case Some(t) => MatchPathSound(path, t); Resolved(t)
  }

  // ---------------------------------------------------------------------
  // The paths that spell a target
  // ---------------------------------------------------------------------

  function Segments(t: Target): seq<string>
    requires WellFormed(t)
  {
    match t.resource
    case Status => ["status"]
    case User => ["users", t.publicKey.value]
    case Images => ["users", t.publicKey.value, "images"]
    case Image => ["users", t.publicKey.value, "images", t.imageIdentifier.value]
    case Metadata => ["users", t.publicKey.value, "images", t.imageIdentifier.value, "meta"]
  }

  /** The canonical path of a target. */
  function Render(t: Target): string
    requires WellFormed(t)
  {
    "/" + Join(Segments(t)) + if t.extension.Some? then "." + t.extension.value else ""
  }

  /** `path` addresses `t`: its canonical path, or that path and one `/` when there is no extension. */
  predicate Spells(t: Target, path: string)
  {
    WellFormed(t) && (path == Render(t) || (t.extension.None? && path == Render(t) + "/"))
  }

  // ---------------------------------------------------------------------
  // Lemmas about segments
  // ---------------------------------------------------------------------

  lemma {:induction false} SplitJoin(s: string)
    ensures Join(Split(s)) == s
    decreases |s|
  {
    if |s| > 0 {
      SplitJoin(s[1..]);
      var rest := Split(s[1..]);
      if s[0] == '/' {
        assert s == "/" + s[1..];
      } else if |rest| == 1 {
        assert s == [s[0]] + s[1..];
      } else {
        assert rest[1..][..] == rest[1..];
        assert Join(rest) == rest[0] + "/" + Join(rest[1..]);
        assert s == [s[0]] + s[1..];
      }
    }
  }

  lemma {:induction false} SplitNoSlash(p: string)
    requires '/' !in p
    ensures Split(p) == [p]
    decreases |p|
  {
    if |p| > 0 {
      assert '/' !in p[1..] by {
        forall i | 0 <= i < |p[1..]| ensures p[1..][i] != '/' { assert p[1..][i] == p[i + 1]; }
      }
      SplitNoSlash(p[1..]);
      assert [p[0]] + p[1..] == p;
    }
  }

  lemma {:induction false} SplitSlash(p: string, rest: string)
    requires '/' !in p
    ensures Split(p + "/" + rest) == [p] + Split(rest)
    decreases |p|
  {
    if |p| == 0 {
      assert p + "/" + rest == "/" + rest;
      assert ("/" + rest)[1..] == rest;
    } else {
      assert '/' !in p[1..] by {
        forall i | 0 <= i < |p[1..]| ensures p[1..][i] != '/' { assert p[1..][i] == p[i + 1]; }
      }
      SplitSlash(p[1..], rest);
      assert (p + "/" + rest)[1..] == p[1..] + "/" + rest;
      assert [p[0]] + p[1..] == p;
    }
  }

  lemma {:induction false} JoinSplit(parts: seq<string>)
    requires |parts| > 0
    requires forall k :: 0 <= k < |parts| ==> '/' !in parts[k]
    ensures Split(Join(parts)) == parts
    decreases |parts|
  {
    if |parts| == 1 {
      SplitNoSlash(parts[0]);
    } else {
      JoinSplit(parts[1..]);
      SplitSlash(parts[0], Join(parts[1..]));
      assert [parts[0]] + parts[1..] == parts;
    }
  }

  /** A character other than `/` occurs in the joined string only if it occurs in a part. */
  lemma {:induction false} JoinChars(parts: seq<string>, c: char)
    requires |parts| > 0 && c != '/'
    requires forall k :: 0 <= k < |parts| ==> c !in parts[k]
    ensures c !in Join(parts)
    decreases |parts|
  {
    if |parts| > 1 {
      JoinChars(parts[1..], c);
    }
  }

  /** The joined string ends with the last part. */
  lemma {:induction false} JoinLast(parts: seq<string>)
    requires |parts| > 0 && |parts[|parts| - 1]| > 0
    ensures |Join(parts)| > 0 && Join(parts)[|Join(parts)| - 1] == parts[|parts| - 1][|parts[|parts| - 1]| - 1]
    decreases |parts|
  {
    if |parts| > 1 {
      JoinLast(parts[1..]);
    }
  }

  // ---------------------------------------------------------------------
  // The paths a target is matched from: both directions
  // ---------------------------------------------------------------------

  lemma SegmentsSound(segs: seq<string>, ext: Option<string>, t: Target)
    requires MatchSegments(segs, ext) == Some(t)
    requires ext.Some? ==> IsExtension(ext.value)
    ensures WellFormed(t) && t.extension == ext && Segments(t) == segs
  {
  }

  lemma SegmentsComplete(t: Target)
    requires WellFormed(t)
    ensures MatchSegments(Segments(t), t.extension) == Some(t)
  {
  }

  /** The segments of a target contain neither `/` nor `.`, and the last one is not empty. */
  lemma SegmentsClean(t: Target)
    requires WellFormed(t)
    ensures forall k :: 0 <= k < |Segments(t)| ==> '/' !in Segments(t)[k] && '.' !in Segments(t)[k]
    ensures |Segments(t)[|Segments(t)| - 1]| > 0
  {
    var segs := Segments(t);
    forall k | 0 <= k < |segs| ensures '/' !in segs[k] && '.' !in segs[k] {
      if t.publicKey.Some? && segs[k] == t.publicKey.value {
        assert forall i :: 0 <= i < |segs[k]| ==> PublicKeyChar(segs[k][i]);
      } else if t.imageIdentifier.Some? && segs[k] == t.imageIdentifier.value {
        assert forall i :: 0 <= i < |segs[k]| ==> HexChar(segs[k][i]);
      }
    }
  }

  lemma BaseSound(base: string, ext: Option<string>, t: Target)
    requires MatchBase(base, ext) == Some(t)
    requires ext.Some? ==> IsExtension(ext.value)
    ensures WellFormed(t) && t.extension == ext && base == "/" + Join(Segments(t))
  {
    SegmentsSound(Split(base[1..]), ext, t);
    SplitJoin(base[1..]);
    assert base == "/" + base[1..];
  }

  lemma RenderWith(t: Target, base: string)
    requires WellFormed(t) && base == "/" + Join(Segments(t))
    ensures Render(t) == base + if t.extension.Some? then "." + t.extension.value else ""
  {
  }

  lemma SoundWithSlash(path: string, t: Target)
    requires |path| > 0 && path[|path| - 1] == '/'
    requires MatchBase(path[..|path| - 1], None) == Some(t)
    ensures Spells(t, path)
  {
    var base := path[..|path| - 1];
    BaseSound(base, None, t);
    RenderWith(t, base);
    assert path == base + "/";
  }

  lemma SoundWithExtension(path: string, i: nat, t: Target)
    requires i < |path| && path[i] == '.' && IsExtension(path[i + 1..])
    requires MatchBase(path[..i], Some(path[i + 1..])) == Some(t)
    ensures Spells(t, path)
  {
    var base, ext := path[..i], path[i + 1..];
    BaseSound(base, Some(ext), t);
    RenderWith(t, base);
    SplitAtDot(path, i);
  }

  lemma SplitAtDot(s: string, i: nat)
    requires i < |s| && s[i] == '.'
    ensures s == s[..i] + "." + s[i + 1..]
  {
  }

  /** Every path the matcher accepts spells the target it returns. */
  lemma MatchPathSound(path: string, t: Target)
    requires MatchPath(path) == Some(t)
    ensures Spells(t, path)
  {
    var n := |path|;
    if n > 0 && path[n - 1] == '/' {
      SoundWithSlash(path, t);
    } else {
      var dot := LastIndexOf(path, '.');
      if dot.None? {
        BaseSound(path, None, t);
        RenderWith(t, path);
      } else {
        SoundWithExtension(path, dot.value, t);
      }
    }
  }

  /** Every path that spells a well-formed target is matched to that target. */
  lemma MatchPathComplete(path: string, t: Target)
    requires Spells(t, path)
    ensures MatchPath(path) == Some(t)
  {
    var segs := Segments(t);
    SegmentsClean(t);
    SegmentsComplete(t);
    JoinSplit(segs);
    JoinChars(segs, '.');
    JoinLast(segs);
    var base := "/" + Join(segs);
    assert base[1..] == Join(segs);
    assert forall j :: 0 <= j < |base| ==> base[j] != '.';
    assert base[|base| - 1] != '/';
    if path == Render(t) {
      if t.extension.Some? {
        var e := t.extension.value;
        assert path == base + "." + e;
        assert path[|path| - 1] == e[|e| - 1];
        var i := LastIndexOf(path, '.');
        assert path[|base|] == '.';
        assert i.Some? && i.value == |base|;
        assert path[..|base|] == base && path[|base| + 1..] == e;
      } else {
        assert path == base;
      }
    } else {
      assert path == base + "/";
      assert path[..|path| - 1] == base;
    }
  }

  /** The matcher accepts exactly the paths that spell a well-formed target. */
  lemma MatchPathCharacterization(path: string, t: Target)
    ensures MatchPath(path) == Some(t) <==> Spells(t, path)
  {
    if MatchPath(path) == Some(t) {
      MatchPathSound(path, t);
    }
    if Spells(t, path) {
      MatchPathComplete(path, t);
    }
  }

  // ---------------------------------------------------------------------
  // Behaviour the router promises
  // ---------------------------------------------------------------------

  /** A segment boundary: the end of the path, a `/` or the `.` before an extension. */
  predicate AtBoundary(x: string)
  {
    |x| == 0 || x[0] == '/' || x[0] == '.'
  }

  /** A piece of path with no `/` and no `.`. */
  predicate Token(s: string)
  {
    forall i :: 0 <= i < |s| ==> s[i] != '/' && s[i] != '.'
  }

  /** Two tokens followed by boundaries are equal when the strings are. */
  lemma TokenPrefix(a: string, x: string, b: string, y: string)
    requires Token(a) && Token(b) && AtBoundary(x) && AtBoundary(y)
    requires a + x == b + y
    ensures a == b && x == y
  {
    assert a == (a + x)[..|a|];
    assert b == (b + y)[..|b|];
  }

  lemma JoinHead(parts: seq<string>) returns (tail: string)
    requires |parts| > 0
    ensures Join(parts) == parts[0] + tail && (|tail| == 0 || tail[0] == '/')
  {
    if |parts| > 1 {
      tail := "/" + Join(parts[1..]);
    } else {
      tail := "";
      assert Join(parts) == parts[0] + tail;
    }
  }

  /** Every accepted path starts with `/`, a first segment, and a boundary. */
  lemma RenderHead(t: Target, rest: string) returns (tail: string)
    requires WellFormed(t) && AtBoundary(rest)
    ensures Render(t) + rest == "/" + Segments(t)[0] + tail && AtBoundary(tail)
  {
    var segs := Segments(t);
    var jt := JoinHead(segs);
    var ext := if t.extension.Some? then "." + t.extension.value else "";
    tail := jt + ext + rest;
    assert Render(t) + rest == "/" + segs[0] + tail;
  }

  lemma PathHead(path: string, t: Target) returns (tail: string)
    requires Spells(t, path)
    ensures path == "/" + Segments(t)[0] + tail && AtBoundary(tail)
  {
    if path == Render(t) {
      tail := RenderHead(t, "");
      assert Render(t) + "" == path;
    } else {
      tail := RenderHead(t, "/");
    }
  }

  /** The first segment of a spelled path is the target's first segment. */
  lemma SlashPrefix(x: string, y: string)
    ensures ("/" + x + y)[1..] == x + y
  {
  }

  lemma FirstSegment(path: string, t: Target, segment: string, rest: string)
    requires Spells(t, path)
    requires path == "/" + segment + rest && Token(segment) && AtBoundary(rest)
    ensures segment == Segments(t)[0]
  {
    var tail := PathHead(path, t);
    var first := Segments(t)[0];
    assert Token(first);
    SlashPrefix(segment, rest);
    SlashPrefix(first, tail);
    TokenPrefix(segment, rest, first, tail);
  }

  /** A path whose first segment is neither `status` nor `users` is not found. */
  lemma UnknownFirstSegment(verb: string, segment: string, rest: string)
    requires Token(segment) && segment != "status" && segment != "users" && AtBoundary(rest)
    requires verb in SupportedMethods
    ensures Resolve(verb, "/" + segment + rest) == Failed(NotFound)
  {
    var path := "/" + segment + rest;
    var m := MatchPath(path);
    if m.Some? {
      MatchPathSound(path, m.value);
      FirstSegment(path, m.value, segment, rest);
      assert false;
    }
  }

  /** The canonical path is not empty and does not end with `/`. */
  lemma RenderLast(t: Target)
    requires WellFormed(t)
    ensures |Render(t)| > 0 && Render(t)[|Render(t)| - 1] != '/'
  {
    var segs := Segments(t);
    SegmentsClean(t);
    JoinLast(segs);
    var last := segs[|segs| - 1];
    assert last[|last| - 1] in last;
    if t.extension.Some? {
      var e := t.extension.value;
      assert Render(t)[|Render(t)| - 1] == e[|e| - 1];
    } else {
      assert Render(t) == "/" + Join(segs);
    }
  }

  /** Without an extension the canonical path holds no `.`. */
  lemma RenderNoDot(t: Target)
    requires WellFormed(t) && t.extension.None?
    ensures '.' !in Render(t)
  {
    SegmentsClean(t);
    JoinChars(Segments(t), '.');
    assert Render(t) == "/" + Join(Segments(t));
  }

  lemma NoDotAfter(b: string, e: string, k: nat)
    requires '.' !in e && |b| < k < |b| + 1 + |e|
    ensures (b + "." + e)[k] != '.'
  {
    assert (b + "." + e)[k] == e[k - |b| - 1];
  }

  /** A string splits at most one way into a prefix, a `.` and a suffix without `.`. */
  lemma DotSplitUnique(b1: string, e1: string, b2: string, e2: string)
    requires b1 + "." + e1 == b2 + "." + e2 && '.' !in e1 && '.' !in e2
    ensures b1 == b2 && e1 == e2
  {
    var s := b1 + "." + e1;
    if |b1| < |b2| {
      NoDotAfter(b1, e1, |b2|);
      assert false;
    } else if |b2| < |b1| {
      NoDotAfter(b2, e2, |b1|);
      assert false;
    }
    assert b1 == s[..|b1|] && b2 == s[..|b2|];
    assert e1 == s[|b1| + 1..] && e2 == s[|b2| + 1..];
  }

  /**
   * One `/` appended to a path that does not end with `/` keeps its target
   * when that target has no extension, and otherwise matches nothing.
   */
  lemma TrailingSlash(p: string)
    requires |p| == 0 || p[|p| - 1] != '/'
    ensures MatchPath(p + "/") == if MatchPath(p).Some? && MatchPath(p).value.extension.None? then MatchPath(p) else None
  {
    var q := p + "/";
    if MatchPath(q).Some? {
      var t := MatchPath(q).value;
      MatchPathSound(q, t);
      RenderLast(t);
      assert q != Render(t);
      assert p == Render(t);
      MatchPathComplete(p, t);
    } else if MatchPath(p).Some? {
      var t := MatchPath(p).value;
      if t.extension.None? {
        MatchPathSound(p, t);
        RenderLast(t);
        assert p == Render(t);
        MatchPathComplete(q, t);
      }
    }
  }

  /** A path ending in `.e` is matched only to a target with an extension. */
  lemma ExtensionPresent(b: string, e: string, t: Target)
    requires IsExtension(e) && Spells(t, b + "." + e)
    ensures t.extension.Some? && b + "." + e == Render(t)
  {
    var p := b + "." + e;
    assert p[|p| - 1] == e[|e| - 1];
    assert p[|b|] == '.';
    if t.extension.None? {
      RenderNoDot(t);
      assert false;
    }
  }

  lemma ExtensionSound(b: string, e: string, t: Target)
    requires IsExtension(e) && MatchPath(b + "." + e) == Some(t)
    ensures t.extension == Some(e) && MatchPath(b) == Some(t.(extension := None))
  {
    MatchPathSound(b + "." + e, t);
    ExtensionPresent(b, e, t);
    var t0 := t.(extension := None);
    assert Render(t) == Render(t0) + "." + t.extension.value;
    assert '.' !in e && '.' !in t.extension.value;
    DotSplitUnique(b, e, Render(t0), t.extension.value);
    MatchPathComplete(b, t0);
  }

  lemma ExtensionComplete(b: string, e: string, t: Target)
    requires IsExtension(e) && (|b| == 0 || b[|b| - 1] != '/')
    requires MatchPath(b) == Some(t) && t.extension.None?
    ensures MatchPath(b + "." + e) == Some(t.(extension := Some(e)))
  {
    MatchPathSound(b, t);
    RenderLast(t);
    assert b == Render(t);
    var te := t.(extension := Some(e));
    assert Render(te) == b + "." + e;
    MatchPathComplete(b + "." + e, te);
  }

  /**
   * A `.extension` appended to a path that does not end with `/` adds the
   * extension to a target that had none, and otherwise matches nothing.
   */
  lemma ExtensionSuffix(b: string, e: string)
    requires IsExtension(e) && (|b| == 0 || b[|b| - 1] != '/')
    ensures MatchPath(b + "." + e) ==
      if MatchPath(b).Some? && MatchPath(b).value.extension.None?
      then Some(MatchPath(b).value.(extension := Some(e)))
      else None
  {
    if MatchPath(b + "." + e).Some? {
      ExtensionSound(b, e, MatchPath(b + "." + e).value);
    }
    if MatchPath(b).Some? && MatchPath(b).value.extension.None? {
      ExtensionComplete(b, e, MatchPath(b).value);
    }
  }

  /** An extension followed by a `/` is never a route. */
  lemma ExtensionThenSlash(verb: string, b: string, e: string)
    requires IsExtension(e) && verb in SupportedMethods
    ensures Resolve(verb, b + "." + e + "/") == Failed(NotFound)
  {
    var p := b + "." + e;
    assert p[|p| - 1] == e[|e| - 1];
    TrailingSlash(p);
    if MatchPath(p).Some? {
      ExtensionSound(b, e, MatchPath(p).value);
    }
  }

  lemma JoinUsers(parts: seq<string>) returns (tail: string)
    requires |parts| >= 2 && parts[0] == "users"
    ensures "/" + Join(parts) == "/users/" + parts[1] + tail && AtBoundary(tail)
  {
    tail := JoinHead(parts[1..]);
    assert Join(parts) == "users" + "/" + Join(parts[1..]);
  }

  lemma RenderUser(t: Target, rest: string) returns (tail: string)
    requires WellFormed(t) && t.resource != Status && AtBoundary(rest)
    ensures Render(t) + rest == "/users/" + t.publicKey.value + tail && AtBoundary(tail)
  {
    var segs := Segments(t);
    var jt := JoinUsers(segs);
    var ext := if t.extension.Some? then "." + t.extension.value else "";
    tail := jt + ext + rest;
    assert Render(t) == "/" + Join(segs) + ext;
  }

  lemma PathUser(path: string, t: Target) returns (tail: string)
    requires Spells(t, path) && t.resource != Status
    ensures path == "/users/" + t.publicKey.value + tail && AtBoundary(tail)
  {
    if path == Render(t) {
      tail := RenderUser(t, "");
      assert Render(t) + "" == path;
    } else {
      tail := RenderUser(t, "/");
    }
  }

  lemma KeyToken(t: Target)
    requires WellFormed(t) && t.resource != Status
    ensures Token(t.publicKey.value)
  {
    var pk := t.publicKey.value;
    assert forall i :: 0 <= i < |pk| ==> PublicKeyChar(pk[i]);
  }

  lemma UsersPrefix(x: string, y: string)
    ensures "/users/" + x + y == "/" + "users" + ("/" + x + y)
    ensures ("/users/" + x + y)[7..] == x + y
  {
    assert "/users/" == "/" + "users" + "/";
  }

  /** The second segment of a spelled path under `/users/` is the target's public key. */
  lemma SecondSegment(path: string, t: Target, key: string, rest: string)
    requires Spells(t, path)
    requires path == "/users/" + key + rest && Token(key) && AtBoundary(rest)
    ensures t.resource != Status && key == t.publicKey.value
  {
    UsersPrefix(key, rest);
    FirstSegment(path, t, "users", "/" + key + rest);
    var tail := PathUser(path, t);
    var pk := t.publicKey.value;
    UsersPrefix(pk, tail);
    KeyToken(t);
    TokenPrefix(key, rest, pk, tail);
  }

  /** A public key outside `[a-z0-9_-]+`, upper case included, is not found. */
  lemma InvalidPublicKey(verb: string, key: string, rest: string)
    requires Token(key) && !IsPublicKey(key) && AtBoundary(rest)
    requires verb in SupportedMethods
    ensures Resolve(verb, "/users/" + key + rest) == Failed(NotFound)
  {
    var path := "/users/" + key + rest;
    var m := MatchPath(path);
    if m.Some? {
      MatchPathSound(path, m.value);
      SecondSegment(path, m.value, key, rest);
      assert false;
    }
  }

  // ---------------------------------------------------------------------
  // Routing a request
  // ---------------------------------------------------------------------

  function KeySetter(t: Target): seq<Call>
  {
    if t.publicKey.Some? then [PublicKeySet(t.publicKey.value)] else []
  }

  function IdentifierSetter(t: Target): seq<Call>
  {
    if t.imageIdentifier.Some? then [ImageIdentifierSet(t.imageIdentifier.value)] else []
  }

  function ExtensionSetter(t: Target): seq<Call>
  {
    if t.extension.Some? then [ExtensionSet(t.extension.value)] else []
  }

  /** The setters the router calls for a target, in order. */
  function Setters(t: Target): seq<Call>
  {
    [ResourceSet(ResourceName(t.resource))] + KeySetter(t) + IdentifierSetter(t) + ExtensionSetter(t)
  }

  /** The calls the router makes on the request: the method, then the path, then the setters. */
  function Interactions(verb: string, outcome: Outcome): seq<Call>
  {
    if verb == "BREW" || verb !in SupportedMethods then [MethodRead]
    else match outcome
      case Failed(_) => [MethodRead, PathRead]
      case Resolved(t) => [MethodRead, PathRead] + Setters(t)
  }

  /**
   * Routes a request: reads its method and, when the method is supported,
   * its path; on a match writes the resource name and each capture onto the
   * request. A failure leaves the request's fields as they were.
   */
  method Route(request: Request) returns (outcome: Outcome)
    modifies request
    ensures outcome == Resolve(request.httpMethod, request.path)
    ensures request.calls == old(request.calls) + Interactions(request.httpMethod, outcome)
    ensures outcome.Failed? ==>
      && request.resource == old(request.resource) && request.publicKey == old(request.publicKey)
      && request.imageIdentifier == old(request.imageIdentifier) && request.extension == old(request.extension)
    ensures outcome.Resolved? ==>
      var t := outcome.target;
      && request.resource == Some(ResourceName(t.resource))
      && request.publicKey == (if t.publicKey.Some? then t.publicKey else old(request.publicKey))
      && request.imageIdentifier == (if t.imageIdentifier.Some? then t.imageIdentifier else old(request.imageIdentifier))
      && request.extension == (if t.extension.Some? then t.extension else old(request.extension))
  {
    ghost var log := request.calls;
    var verb := request.GetMethod();
    if verb == "BREW" {
      return Failed(Teapot);
    }
    if verb !in SupportedMethods {
      return Failed(UnsupportedMethod);
    }
    var path := request.GetPath();
    ghost var read := log + [MethodRead, PathRead];
    assert request.calls == read by {
      AppendAssoc(log, [MethodRead], [PathRead]);
      assert [MethodRead] + [PathRead] == [MethodRead, PathRead];
    }
    var m := MatchPath(path);
    if m.None? {
      return Failed(NotFound);
    }
    var t := m.value;
    request.SetResource(ResourceName(t.resource));
    ghost var done := [ResourceSet(ResourceName(t.resource))];
    if t.publicKey.Some? {
      request.SetPublicKey(t.publicKey.value);
      AppendAssoc(read, done, KeySetter(t));
    }
    done := done + KeySetter(t);
    assert request.calls == read + done;
    if t.imageIdentifier.Some? {
      request.SetImageIdentifier(t.imageIdentifier.value);
      AppendAssoc(read, done, IdentifierSetter(t));
    }
    done := done + IdentifierSetter(t);
    assert request.calls == read + done;
    if t.extension.Some? {
      request.SetExtension(t.extension.value);
      AppendAssoc(read, done, ExtensionSetter(t));
    }
    done := done + ExtensionSetter(t);
    assert request.calls == read + Setters(t);
    AppendAssoc(log, [MethodRead, PathRead], Setters(t));
    outcome := Resolved(t);
  }

  lemma AppendAssoc<T>(a: seq<T>, b: seq<T>, c: seq<T>)
    ensures a + b + c == a + (b + c)
  {
  }

  /** The resource name is set once, and no other resource name is set. */
  lemma ResourceSetOnce(t: Target)
    ensures multiset(Setters(t))[ResourceSet(ResourceName(t.resource))] == 1
    ensures forall c :: c in Setters(t) && c.ResourceSet? ==> c.name == ResourceName(t.resource)
  {
  }

  /** The public key is set once when captured, never otherwise, and only to the captured value. */
  lemma KeySetOnce(t: Target)
    ensures t.publicKey.Some? ==> multiset(Setters(t))[PublicKeySet(t.publicKey.value)] == 1
    ensures forall c :: c in Setters(t) && c.PublicKeySet? ==> Some(c.key) == t.publicKey
  {
  }

  /** The image identifier is set once when captured, never otherwise, and only to the captured value. */
  lemma IdentifierSetOnce(t: Target)
    ensures t.imageIdentifier.Some? ==> multiset(Setters(t))[ImageIdentifierSet(t.imageIdentifier.value)] == 1
    ensures forall c :: c in Setters(t) && c.ImageIdentifierSet? ==> Some(c.id) == t.imageIdentifier
  {
  }

  /** The extension is set once when captured, never otherwise, and only to the captured value. */
  lemma ExtensionSetOnce(t: Target)
    ensures t.extension.Some? ==> multiset(Setters(t))[ExtensionSet(t.extension.value)] == 1
    ensures forall c :: c in Setters(t) && c.ExtensionSet? ==> Some(c.ext) == t.extension
  {
  }

  /**
   * What the router's unit test expects of the request, for whatever outcome
   * the router reaches: the method is read once and first; the path is read
   * once, and only for a supported method; a failure sets nothing; a match
   * makes exactly the calls of `Setters` after the two reads.
   */
  lemma RouteReads(verb: string, outcome: Outcome)
    ensures Interactions(verb, outcome)[0] == MethodRead
    ensures multiset(Interactions(verb, outcome))[MethodRead] == 1
    ensures multiset(Interactions(verb, outcome))[PathRead] == if verb == "BREW" || verb !in SupportedMethods then 0 else 1
  {
    var calls := Interactions(verb, outcome);
    if verb == "BREW" || verb !in SupportedMethods {
      assert calls == [MethodRead];
    } else if outcome.Failed? {
      assert calls == [MethodRead, PathRead];
    } else {
      var t := outcome.target;
      SettersAreSetters(t);
      assert calls == [MethodRead, PathRead] + Setters(t);
    }
  }

  lemma SettersAreSetters(t: Target)
    ensures multiset(Setters(t))[MethodRead] == 0 && multiset(Setters(t))[PathRead] == 0
  {
    forall c | c in Setters(t) ensures c.IsSetter() {
    }
  }

  lemma RouteWrites(verb: string, outcome: Outcome)
    ensures outcome.Failed? ==> forall c :: c in Interactions(verb, outcome) ==> !c.IsSetter()
    ensures outcome.Resolved? && verb != "BREW" && verb in SupportedMethods ==>
      Interactions(verb, outcome)[2..] == Setters(outcome.target)
  {
  }
}
