/**
 * The naming and option rules of the Rust gzip library: level clamping,
 * default output names, the overwrite check and path comparison.  The
 * DEFLATE encoder and decoder and the file system calls are not modelled.
 */
module GzipLib {
  import opened Text
  import opened Wrappers

  const MinLevel: nat := 0
  const MaxLevel: nat := 9
  const GzSuffix: string := ".gz"
  const OutSuffix: string := ".out"

  /** `sanitize_level`: clamps a `u32` level into [MinLevel, MaxLevel]. */
  function SanitizeLevel(level: nat): (r: nat)
    ensures MinLevel <= r <= MaxLevel
    ensures level <= MaxLevel ==> r == level
    ensures level > MaxLevel ==> r == MaxLevel
  {
    if level < MinLevel then MinLevel else if level > MaxLevel then MaxLevel else level
  }

  /** The level `compress_path` and `compress_reader_to_writer` hand to the encoder. */
  function EncoderLevel(requested: nat): (r: nat)
    ensures r <= MaxLevel
    ensures r == SanitizeLevel(SanitizeLevel(requested))
  {
    SanitizeLevel(requested)
  }

  /** Sanitizing twice (once in the CLI, once in the library) is sanitizing once. */
  lemma SanitizeIdempotent(level: nat)
    ensures SanitizeLevel(SanitizeLevel(level)) == SanitizeLevel(level)
  {
  }

  /*
   * Paths.  A path is its text, read as Rust's `std::path` reads a Unix path:
   * an optional root `/`, a `.` component kept only at the very start of a
   * relative path, then the `/`-separated segments of the body, where empty
   * and `.` segments are skipped and `..` is the parent component.
   */

  datatype Component = RootDir | CurDir | ParentDir | Normal(name: string)

  predicate Rooted(s: string) {
    |s| > 0 && s[0] == '/'
  }

  /** Whether `s` is `.` or starts with `./`, the one place a `.` component is kept. */
  predicate LeadingCurDir(s: string) {
    s == "." || (|s| >= 2 && s[0] == '.' && s[1] == '/')
  }

  /** The component in front of the body: the root, or a leading `.`. */
  function Lead(s: string): (r: seq<Component>)
    ensures |r| <= 1 && |r| <= |s|
  {
    if Rooted(s) then [RootDir] else if LeadingCurDir(s) then [CurDir] else []
  }

  /** Whether the body `s[lo..hi]` ends in a separator or in a `.` segment, which `trim_right` drops. */
  predicate EndsTrimmable(s: string, lo: nat, hi: nat)
    requires lo <= hi <= |s|
  {
    lo < hi && (s[hi - 1] == '/' || (s[hi - 1] == '.' && (hi - 1 == lo || s[hi - 2] == '/')))
  }

  /** `trim_right`: where the body `s[lo..hi]` ends once its trailing separators and `.` segments are dropped. */
  function TrimEnd(s: string, lo: nat, hi: nat): (e: nat)
    requires lo <= hi <= |s|
    ensures lo <= e <= hi && !EndsTrimmable(s, lo, e)
    decreases hi
  {
    if EndsTrimmable(s, lo, hi) then TrimEnd(s, lo, hi - 1) else hi
  }

  /** Where the last segment of `s[lo..hi]` starts: just after its last separator, or at `lo`. */
  function SegmentStart(s: string, lo: nat, hi: nat): (st: nat)
    requires lo <= hi <= |s|
    ensures lo <= st <= hi
    ensures forall i :: st <= i < hi ==> s[i] != '/'
    ensures st > lo ==> s[st - 1] == '/'
    decreases hi
  {
    if hi == lo then lo else if s[hi - 1] == '/' then hi else SegmentStart(s, lo, hi - 1)
  }

  /** Where the body before the last segment starting at `st` ends: before its separator. */
  function BeforeSegment(lo: nat, st: nat): nat {
    if st <= lo then lo else st - 1
  }

  function ComponentOf(segment: string): Component {
    if segment == ".." then ParentDir else Normal(segment)
  }

  /** The components of the body `s[lo..hi]`, read from the back as `Components::next_back` reads them. */
  function BodyComponents(s: string, lo: nat, hi: nat): seq<Component>
    requires lo <= hi <= |s|
    decreases hi
  {
    var e := TrimEnd(s, lo, hi);
    if e == lo then []
    else
      var st := SegmentStart(s, lo, e);
      BodyComponents(s, lo, BeforeSegment(lo, st)) + [ComponentOf(s[st..e])]
  }

  /** `Path::components`. */
  function Components(s: string): seq<Component> {
    Lead(s) + BodyComponents(s, |Lead(s)|, |s|)
  }

  /** `Path::file_name`: the last component when it is a normal name. */
  function FileName(s: string): Option<string> {
    var k := |Lead(s)|;
    var e := TrimEnd(s, k, |s|);
    if e == k then None
    else
      var segment := s[SegmentStart(s, k, e)..e];
      if segment == ".." then None else Some(segment)
  }

  /**
   * `Path::parent`: the path without its last component, as a prefix of the
   * text; None when the last component is the root or there is none.
   */
  function Parent(s: string): (r: Option<string>)
    ensures r.Some? ==> |r.value| <= |s| && r.value == s[..|r.value|]
  {
    var k := |Lead(s)|;
    var e := TrimEnd(s, k, |s|);
    if e == k then (if LeadingCurDir(s) then Some([]) else None)
    else Some(s[..TrimEnd(s, k, BeforeSegment(k, SegmentStart(s, k, e)))])
  }

  /** `PathBuf::push`: an absolute path replaces the base; otherwise it is joined with one separator. */
  function Push(base: string, path: string): string {
    if Rooted(path) then path
    else if base != [] && base[|base| - 1] != '/' then base + "/" + path
    else base + path
  }

  /** `PathBuf::set_file_name`: the name is popped when there is one, and the new name is pushed. */
  function SetFileName(p: string, newName: string): string {
    var base := if FileName(p).Some? then Parent(p).value else p;
    Push(base, newName)
  }

  /** `default_output_for_compress`: ".gz" appended to the name, or to the whole path when it has none. */
  function DefaultOutputForCompress(input: string): string {
    var newName := match FileName(input)
      case Some(s) => s + GzSuffix
      case None => input + GzSuffix;
    SetFileName(input, newName)
  }

  /** `default_output_for_decompress`: one ".gz" stripped from the name, else ".out" appended. */
  function DefaultOutputForDecompress(input: string): string {
    var newName := match FileName(input)
      case Some(s) => if HasSuffix(s, GzSuffix) then s[..|s| - |GzSuffix|] else s + OutSuffix
      case None => input + OutSuffix;
    SetFileName(input, newName)
  }

  /** A segment that reads as one normal component. */
  predicate PlainName(m: string) {
    m != [] && '/' !in m && m != "." && m != ".."
  }

  /** The last component's name, when it is a normal one. */
  function LastName(cs: seq<Component>): Option<string> {
    if cs != [] && cs[|cs| - 1].Normal? then Some(cs[|cs| - 1].name) else None
  }

  /** `file_name` is the name of the last component, and always a plain name. */
  lemma FileNameIsLastComponent(s: string)
    ensures FileName(s) == LastName(Components(s))
    ensures FileName(s).Some? ==> PlainName(FileName(s).value)
  {
    var k := |Lead(s)|;
    var e := TrimEnd(s, k, |s|);
    if e > k {
      var st := SegmentStart(s, k, e);
      var segment := s[st..e];
      assert s[e - 1] != '/' && st < e;
      assert s[e - 1] != '.' || (e - 1 > k && s[e - 2] != '/');
      assert '/' !in segment by {
        forall i | 0 <= i < |segment| ensures segment[i] != '/' {
          assert segment[i] == s[st + i];
        }
      }
    }
  }

  /** The last segment starts at `j` when no separator follows `j` and a separator, or the body's start, precedes it. */
  lemma {:induction false} SegmentStartAt(s: string, lo: nat, hi: nat, j: nat)
    requires lo <= j <= hi <= |s|
    requires forall i :: j <= i < hi ==> s[i] != '/'
    requires j == lo || s[j - 1] == '/'
    ensures SegmentStart(s, lo, hi) == j
    decreases hi
  {
    if hi > lo && s[hi - 1] != '/' {
      SegmentStartAt(s, lo, hi - 1, j);
    }
  }

  /** `TrimEnd` and `SegmentStart` read only `s[lo..hi]`. */
  lemma {:induction false} TrimFrame(s: string, t: string, lo: nat, hi: nat)
    requires lo <= hi <= |s| && hi <= |t|
    requires forall i :: lo <= i < hi ==> s[i] == t[i]
    ensures TrimEnd(s, lo, hi) == TrimEnd(t, lo, hi)
    ensures SegmentStart(s, lo, hi) == SegmentStart(t, lo, hi)
    decreases hi
  {
    if hi > lo {
      TrimFrame(s, t, lo, hi - 1);
      if hi - 1 > lo { assert s[hi - 2] == t[hi - 2]; }
      assert s[hi - 1] == t[hi - 1];
    }
  }

  /** The body's components read only `s[lo..hi]`. */
  lemma {:induction false} BodyFrame(s: string, t: string, lo: nat, hi: nat)
    requires lo <= hi <= |s| && hi <= |t|
    requires forall i :: lo <= i < hi ==> s[i] == t[i]
    ensures BodyComponents(s, lo, hi) == BodyComponents(t, lo, hi)
    decreases hi
  {
    TrimFrame(s, t, lo, hi);
    var e := TrimEnd(s, lo, hi);
    if e > lo {
      TrimFrame(s, t, lo, e);
      var st := SegmentStart(s, lo, e);
      BodyFrame(s, t, lo, BeforeSegment(lo, st));
      assert s[st..e] == t[st..e];
    }
  }

  /** A prefix of `s` shares its body components up to its own length. */
  lemma PrefixBody(s: string, n: nat, lo: nat, hi: nat)
    requires lo <= hi <= n <= |s|
    ensures BodyComponents(s[..n], lo, hi) == BodyComponents(s, lo, hi)
  {
    BodyFrame(s[..n], s, lo, hi);
  }

  /** Trimming first changes nothing: the body up to its trimmed end has the same components. */
  lemma TrimEndKeepsBody(s: string, lo: nat, hi: nat)
    requires lo <= hi <= |s|
    ensures BodyComponents(s, lo, TrimEnd(s, lo, hi)) == BodyComponents(s, lo, hi)
  {
  }

  /** `components` unfolded once: the lead, then the body before the last segment, then the last segment. */
  lemma ComponentsSplit(s: string)
    ensures var k := |Lead(s)|; var e := TrimEnd(s, k, |s|);
            e == k ==> Components(s) == Lead(s)
    ensures var k := |Lead(s)|; var e := TrimEnd(s, k, |s|); var st := SegmentStart(s, k, e);
            e > k ==> Components(s) == Lead(s) + BodyComponents(s, k, BeforeSegment(k, st)) + [ComponentOf(s[st..e])]
  {
  }

  /** The parent of a path with a last component in its body keeps the path's lead. */
  lemma ParentLead(s: string)
    requires TrimEnd(s, |Lead(s)|, |s|) > |Lead(s)|
    ensures var k := |Lead(s)|; var e := TrimEnd(s, k, |s|);
            var e2 := TrimEnd(s, k, BeforeSegment(k, SegmentStart(s, k, e)));
            Lead(s[..e2]) == Lead(s)
  {
    var k := |Lead(s)|;
    var e := TrimEnd(s, k, |s|);
    var e2 := TrimEnd(s, k, BeforeSegment(k, SegmentStart(s, k, e)));
    var par := s[..e2];
    if Rooted(s) {
      assert par[0] == s[0];
    } else if LeadingCurDir(s) {
      assert |s| >= 2;
      if e2 == 1 { assert par == "."; } else { assert par[0] == s[0] && par[1] == s[1]; }
    } else if e2 > 0 {
      assert par[0] == s[0];
      if |par| >= 2 { assert par[1] == s[1]; }
      assert !EndsTrimmable(s, k, e2);
    }
  }

  /** The parent of a path whose body is not empty: the lead and the body before its last segment. */
  lemma ParentOfNamed(s: string)
    requires TrimEnd(s, |Lead(s)|, |s|) > |Lead(s)|
    ensures var k := |Lead(s)|; var st := SegmentStart(s, k, TrimEnd(s, k, |s|));
            Parent(s).Some? && Components(Parent(s).value) == Lead(s) + BodyComponents(s, k, BeforeSegment(k, st))
  {
    var k := |Lead(s)|;
    var e := TrimEnd(s, k, |s|);
    var p := BeforeSegment(k, SegmentStart(s, k, e));
    var e2 := TrimEnd(s, k, p);
    var par := s[..e2];
    assert Parent(s) == Some(par);
    ParentLead(s);
    PrefixBody(s, e2, k, e2);
    TrimEndKeepsBody(s, k, p);
  }

  /**
   * `parent` removes exactly the last component, and there is none to remove
   * only for the empty path and the root.
   */
  lemma ParentComponents(s: string)
    ensures var cs := Components(s);
            Parent(s).None? <==> cs == [] || cs == [RootDir]
    ensures var cs := Components(s);
            Parent(s).Some? ==> cs != [] && Components(Parent(s).value) == cs[..|cs| - 1]
  {
    var k := |Lead(s)|;
    var e := TrimEnd(s, k, |s|);
    ComponentsSplit(s);
    var cs := Components(s);
    if e > k {
      var st := SegmentStart(s, k, e);
      var body := BodyComponents(s, k, BeforeSegment(k, st));
      var last := ComponentOf(s[st..e]);
      assert cs == Lead(s) + body + [last];
      assert last != RootDir;
      ParentOfNamed(s);
      assert cs[..|cs| - 1] == Lead(s) + body;
    } else {
      assert cs == Lead(s);
      assert Rooted(s) ==> !LeadingCurDir(s);
    }
  }

  /** A plain name's last character: a `.` there is preceded by another character of the name, not a separator. */
  lemma PlainNameEnd(m: string)
    requires PlainName(m)
    ensures m[|m| - 1] != '/'
    ensures m[|m| - 1] == '.' ==> |m| >= 2 && m[|m| - 2] != '/'
  {
    assert m[|m| - 1] in m;
    if |m| >= 2 { assert m[|m| - 2] in m; }
  }

  /** A text ending in the plain name `q[j..]`, after `lo`: nothing is trimmed, and the last segment starts at `j`. */
  lemma EndsInNameAt(q: string, lo: nat, j: nat)
    requires lo <= j < |q| && PlainName(q[j..])
    requires j == lo || q[j - 1] == '/'
    ensures TrimEnd(q, lo, |q|) == |q| && SegmentStart(q, lo, |q|) == j
  {
    var m := q[j..];
    PlainNameEnd(m);
    assert q[|q| - 1] == m[|m| - 1];
    if |m| >= 2 { assert q[|q| - 2] == m[|m| - 2]; }
    forall i | j <= i < |q| ensures q[i] != '/' {
      assert q[i] == m[i - j];
      assert m[i - j] in m;
    }
    SegmentStartAt(q, lo, |q|, j);
  }

  /** The body of `q` ending in the plain name `m` at its end, after `j`: one more component. */
  lemma BodyEndsInName(q: string, lo: nat, j: nat, m: string)
    requires PlainName(m) && lo <= j && j + |m| == |q| && q[j..] == m
    requires j == lo || q[j - 1] == '/'
    ensures BodyComponents(q, lo, |q|) == BodyComponents(q, lo, BeforeSegment(lo, j)) + [Normal(m)]
  {
    EndsInNameAt(q, lo, j);
    assert q[j..|q|] == m && ComponentOf(m) == Normal(m);
  }

  /** Extending a path keeps its lead unless the text is a lone `.` not followed by a separator. */
  lemma LeadOfExtension(base: string, q: string)
    requires base != [] && |q| > |base| && q[..|base|] == base
    requires |base| >= 2 || base == "/" || q[|base|] == '/'
    ensures Lead(q) == Lead(base)
  {
    assert q[0] == base[0];
    if |base| >= 2 { assert q[1] == base[1]; }
  }

  /** Pushing a plain name onto the empty path gives just that name. */
  lemma PushPlainOntoEmpty(m: string)
    requires PlainName(m)
    ensures Components(m) == [Normal(m)]
  {
    assert Lead(m) == [] by {
      assert m[0] in m;
      if |m| >= 2 { assert m[1] in m; }
    }
    BodyEndsInName(m, 0, 0, m);
  }

  /** Pushing a plain name onto a path that does not end in a separator adds one. */
  lemma PushPlainAfterName(base: string, m: string)
    requires PlainName(m) && base != [] && base[|base| - 1] != '/'
    ensures Components(base + "/" + m) == Components(base) + [Normal(m)]
  {
    var q := base + "/" + m;
    var k := |Lead(base)|;
    assert q[..|base|] == base && q[|base|] == '/' && q[|base| + 1..] == m;
    LeadOfExtension(base, q);
    BodyEndsInName(q, k, |base| + 1, m);
    PrefixBody(q, |base|, k, |base|);
  }

  /** A body ending in a separator has the components of the body before it. */
  lemma SeparatorEndBody(s: string, lo: nat)
    requires lo < |s| && s[|s| - 1] == '/'
    ensures BodyComponents(s, lo, |s| - 1) == BodyComponents(s, lo, |s|)
  {
    assert TrimEnd(s, lo, |s|) == TrimEnd(s, lo, |s| - 1);
  }

  /** The body of `q`, a text `base` ending in a separator followed by the plain name `q[|base|..]`, after `lo`. */
  lemma BodyAfterSlash(base: string, q: string, lo: nat)
    requires lo <= |base| < |q| && q[..|base|] == base && PlainName(q[|base|..])
    requires base != [] && base[|base| - 1] == '/'
    ensures BodyComponents(q, lo, |q|) == BodyComponents(base, lo, |base|) + [Normal(q[|base|..])]
  {
    var m := q[|base|..];
    BodyEndsInName(q, lo, |base|, m);
    if |base| > lo {
      assert q[|base| - 1] == '/';
      PrefixBody(q, |base|, lo, |base| - 1);
      SeparatorEndBody(base, lo);
    }
  }

  /** Pushing a plain name onto a path that ends in a separator appends the name. */
  lemma PushPlainAfterSlash(base: string, m: string)
    requires PlainName(m) && base != [] && base[|base| - 1] == '/'
    ensures Components(base + m) == Components(base) + [Normal(m)]
  {
    var q := base + m;
    assert q[..|base|] == base && q[|base|..] == m;
    LeadOfExtension(base, q);
    BodyAfterSlash(base, q, |Lead(base)|);
  }

  /** Pushing a plain name appends one normal component, which becomes the file name. */
  lemma PushPlain(base: string, m: string)
    requires PlainName(m)
    ensures Components(Push(base, m)) == Components(base) + [Normal(m)]
    ensures FileName(Push(base, m)) == Some(m)
  {
    assert !Rooted(m) by { assert m[0] in m; }
    var q := Push(base, m);
    if base == [] {
      assert q == m;
      PushPlainOntoEmpty(m);
    } else if base[|base| - 1] != '/' {
      assert q == base + "/" + m;
      PushPlainAfterName(base, m);
    } else {
      assert q == base + m;
      PushPlainAfterSlash(base, m);
    }
    FileNameIsLastComponent(q);
  }

  /** Pushing an empty name adds at most a separator and leaves the components alone. */
  lemma PushEmpty(base: string)
    ensures Components(Push(base, [])) == Components(base)
  {
    if base != [] && base[|base| - 1] != '/' {
      var q := base + "/";
      assert Push(base, []) == q;
      var k := |Lead(base)|;
      assert Lead(q) == Lead(base) by {
        assert q[0] == base[0];
        if |base| >= 2 { assert q[1] == base[1]; }
      }
      assert TrimEnd(q, k, |q|) == TrimEnd(q, k, |base|);
      PrefixBody(q, |base|, k, |base|);
      assert q[..|base|] == base;
    } else {
      assert Push(base, []) == base;
    }
  }

  /**
   * `set_file_name` with a plain name replaces the last component of a path
   * that has a name, and adds one to a path that has none; an empty name on a
   * path that has one just removes it.
   */
  lemma SetFileNameSpec(p: string, m: string)
    ensures var cs := Components(p);
            FileName(p).Some? && PlainName(m) ==>
              cs != [] && Components(SetFileName(p, m)) == cs[..|cs| - 1] + [Normal(m)]
              && FileName(SetFileName(p, m)) == Some(m)
    ensures FileName(p).None? && PlainName(m) ==>
              Components(SetFileName(p, m)) == Components(p) + [Normal(m)]
    ensures var cs := Components(p);
            FileName(p).Some? && m == [] ==>
              cs != [] && Components(SetFileName(p, m)) == cs[..|cs| - 1]
  {
    if FileName(p).Some? {
      ParentComponents(p);
      if PlainName(m) { PushPlain(Parent(p).value, m); }
      if m == [] { PushEmpty(Parent(p).value); }
    } else if PlainName(m) {
      PushPlain(p, m);
    }
  }

  /** For a named input, the output has ".gz" appended to its name and keeps the directory. */
  lemma CompressOutputSpec(input: string)
    ensures var cs := Components(input);
            FileName(input).Some? ==>
              cs != [] && FileName(DefaultOutputForCompress(input)) == Some(FileName(input).value + GzSuffix)
              && Components(DefaultOutputForCompress(input)) == cs[..|cs| - 1] + [Normal(FileName(input).value + GzSuffix)]
    ensures FileName(input).None? && Rooted(input) ==> DefaultOutputForCompress(input) == input + GzSuffix
  {
    if FileName(input).Some? {
      var n := FileName(input).value;
      FileNameIsLastComponent(input);
      assert PlainName(n + GzSuffix) by {
        assert (n + GzSuffix)[|n|] == '.' && (n + GzSuffix)[|n| + 1] == 'g';
        forall i | 0 <= i < |n + GzSuffix| ensures (n + GzSuffix)[i] != '/' {
          if i < |n| { assert (n + GzSuffix)[i] == n[i]; }
        }
      }
      SetFileNameSpec(input, n + GzSuffix);
    }
  }

  /**
   * For a named input, the output has one ".gz" stripped from its name, or
   * ".out" appended when the name has no ".gz"; a name that is exactly
   * ".gz" leaves the directory itself.
   */
  lemma DecompressOutputSpec(input: string)
    ensures FileName(input).Some? ==>
              var cs := Components(input); var n := FileName(input).value;
              HasSuffix(n, GzSuffix) && PlainName(TrimSuffix(n, GzSuffix)) ==>
                cs != [] && FileName(DefaultOutputForDecompress(input)) == Some(TrimSuffix(n, GzSuffix))
                && Components(DefaultOutputForDecompress(input)) == cs[..|cs| - 1] + [Normal(TrimSuffix(n, GzSuffix))]
    ensures var cs := Components(input);
            FileName(input) == Some(GzSuffix) ==>
              cs != [] && Components(DefaultOutputForDecompress(input)) == cs[..|cs| - 1]
    ensures FileName(input).Some? ==>
              var cs := Components(input); var n := FileName(input).value;
              !HasSuffix(n, GzSuffix) ==>
                cs != [] && FileName(DefaultOutputForDecompress(input)) == Some(n + OutSuffix)
                && Components(DefaultOutputForDecompress(input)) == cs[..|cs| - 1] + [Normal(n + OutSuffix)]
    ensures FileName(input).None? && Rooted(input) ==> DefaultOutputForDecompress(input) == input + OutSuffix
  {
    if FileName(input).Some? {
      var n := FileName(input).value;
      FileNameIsLastComponent(input);
      if HasSuffix(n, GzSuffix) {
        assert TrimSuffix(n, GzSuffix) == n[..|n| - |GzSuffix|];
        SetFileNameSpec(input, n[..|n| - |GzSuffix|]);
      } else {
        assert PlainName(n + OutSuffix) by {
          assert (n + OutSuffix)[|n|] == '.' && (n + OutSuffix)[|n| + 1] == 'o';
          forall i | 0 <= i < |n + OutSuffix| ensures (n + OutSuffix)[i] != '/' {
            if i < |n| { assert (n + OutSuffix)[i] == n[i]; }
          }
        }
        SetFileNameSpec(input, n + OutSuffix);
      }
    }
  }

  /**
   * For a path with a file name, decompressing's default output undoes
   * compressing's: the result is the same path (`==` on `Path`), with the
   * same file name.
   */
  lemma DecompressUndoesCompress(p: string)
    requires FileName(p).Some?
    ensures SamePath(DefaultOutputForDecompress(DefaultOutputForCompress(p)), p)
    ensures FileName(DefaultOutputForDecompress(DefaultOutputForCompress(p))) == FileName(p)
  {
    var n := FileName(p).value;
    var c := DefaultOutputForCompress(p);
    FileNameIsLastComponent(p);
    CompressOutputSpec(p);
    var m := n + GzSuffix;
    assert HasSuffix(m, GzSuffix) && TrimSuffix(m, GzSuffix) == n by {
      assert m[|m| - |GzSuffix|..] == GzSuffix && m[..|m| - |GzSuffix|] == n;
    }
    DecompressOutputSpec(c);
    var cs := Components(p);
    assert cs == cs[..|cs| - 1] + [Normal(n)];
  }

  /** And for a name ending in ".gz" over a plain stem, compressing's output undoes decompressing's. */
  lemma CompressUndoesDecompress(p: string)
    requires FileName(p).Some? && HasSuffix(FileName(p).value, GzSuffix)
    requires PlainName(TrimSuffix(FileName(p).value, GzSuffix))
    ensures SamePath(DefaultOutputForCompress(DefaultOutputForDecompress(p)), p)
  {
    var n := FileName(p).value;
    var stem := TrimSuffix(n, GzSuffix);
    var cs := Components(p);
    DecompressOutputSpec(p);
    var d := DefaultOutputForDecompress(p);
    assert FileName(d) == Some(stem);
    var cd := Components(d);
    assert cd == cs[..|cs| - 1] + [Normal(stem)];
    CompressOutputSpec(d);
    assert stem + GzSuffix == n;
    assert Components(DefaultOutputForCompress(d)) == cd[..|cd| - 1] + [Normal(n)];
    assert cd[..|cd| - 1] == cs[..|cs| - 1];
    FileNameIsLastComponent(p);
    assert cs == cs[..|cs| - 1] + [Normal(n)];
  }

  /** A path whose text ends in the plain name `s[j..]`: that is its file name, and its parent is the text before. */
  lemma NameAt(s: string, j: nat)
    requires |Lead(s)| <= j < |s| && PlainName(s[j..])
    requires j == |Lead(s)| || s[j - 1] == '/'
    ensures FileName(s) == Some(s[j..])
    ensures Parent(s) == Some(s[..TrimEnd(s, |Lead(s)|, BeforeSegment(|Lead(s)|, j))])
  {
    EndsInNameAt(s, |Lead(s)|, j);
    assert s[j..|s|] == s[j..];
  }

  /** A bare plain name is its own file name, and its parent is the empty path. */
  lemma BareName(m: string)
    requires PlainName(m)
    ensures Lead(m) == [] && FileName(m) == Some(m) && Parent(m) == Some([])
  {
    assert m[0] in m;
    if |m| >= 2 { assert m[1] in m; }
    assert m[0..] == m;
    NameAt(m, 0);
  }

  /** A plain directory name, a separator and a plain name: the name and the directory. */
  lemma DirName(d: string, m: string)
    requires PlainName(d) && PlainName(m)
    ensures FileName(d + "/" + m) == Some(m) && Parent(d + "/" + m) == Some(d)
  {
    var q := d + "/" + m;
    assert q[..|d|] == d && q[|d|] == '/' && q[|d| + 1..] == m;
    assert Lead(q) == [] by {
      assert q[0] == d[0] && d[0] in d;
      if |d| >= 2 { assert q[1] == d[1] && d[1] in d; }
    }
    NameAt(q, |d| + 1);
    PlainNameEnd(d);
    assert q[|d| - 1] == d[|d| - 1];
    if |d| >= 2 { assert q[|d| - 2] == d[|d| - 2]; }
    assert TrimEnd(q, 0, |d|) == |d|;
  }

  /** A trailing separator adds no component. */
  lemma AddSeparator(s: string)
    requires s != []
    ensures Components(s + "/") == Components(s)
  {
    var t := s + "/";
    var k := |Lead(s)|;
    assert t[..|s|] == s && t[|s|] == '/';
    LeadOfExtension(s, t);
    assert TrimEnd(t, k, |t|) == TrimEnd(t, k, |s|);
    TrimEndKeepsBody(t, k, |t|);
    TrimEndKeepsBody(t, k, |s|);
    PrefixBody(t, |s|, k, |s|);
  }

  /** A trailing `.` segment adds no component. */
  lemma AddDotSegment(s: string)
    requires s != []
    ensures Components(s + "/.") == Components(s)
  {
    var t := s + "/.";
    var k := |Lead(s)|;
    assert t[..|s|] == s && t[|s|] == '/' && t[|s| + 1] == '.';
    LeadOfExtension(s, t);
    assert TrimEnd(t, k, |t|) == TrimEnd(t, k, |s| + 1) == TrimEnd(t, k, |s|);
    TrimEndKeepsBody(t, k, |t|);
    TrimEndKeepsBody(t, k, |s|);
    PrefixBody(t, |s|, k, |s|);
  }

  /** Only one ".gz" is stripped: "a.gz.gz" gives "a.gz". */
  lemma StripsOneSuffix()
    ensures DefaultOutputForDecompress("a.gz.gz") == "a.gz"
  {
    BareName("a.gz.gz");
    assert "a.gz.gz"[4..] == GzSuffix && "a.gz.gz"[..4] == "a.gz";
  }

  /** A name without ".gz" gets ".out": "a" gives "a.out". */
  lemma AppendsOutSuffix()
    ensures DefaultOutputForDecompress("a") == "a.out"
  {
    BareName("a");
  }

  /** The directory is kept: "d/a.gz" gives "d/a". */
  lemma KeepsDirectory()
    ensures DefaultOutputForDecompress("d/a.gz") == "d/a"
  {
    var p := "d/a.gz";
    DirName("d", "a.gz");
    assert "d" + "/" + "a.gz" == p;
    assert HasSuffix("a.gz", GzSuffix) && "a.gz"[..1] == "a";
    assert DefaultOutputForDecompress(p) == Push("d", "a");
  }

  /** An input named ".gz" decompresses to its directory with a separator: "x/.gz" gives "x/", whose parent is empty. */
  lemma EmptyStemOutput()
    ensures DefaultOutputForDecompress("x/.gz") == "x/"
    ensures FileName("x/") == Some("x") && Parent("x/") == Some("")
  {
    var s := "x/.gz";
    assert Lead(s) == [] && s[2..] == GzSuffix;
    NameAt(s, 2);
    assert TrimEnd(s, 0, 1) == 1 && s[..1] == "x";
    var t := "x/";
    assert Lead(t) == [];
    assert TrimEnd(t, 0, 2) == 1;
    assert SegmentStart(t, 0, 1) == 0 && t[0..1] == "x";
  }

  /** A nameless input has its whole text pushed as the new name: "out/.." gives "out/../out/...gz". */
  lemma NamelessCompressOutput()
    ensures DefaultOutputForCompress("out/..") == "out/../out/...gz"
  {
    var s := "out/..";
    assert Lead(s) == [];
    assert TrimEnd(s, 0, 6) == 6;
    assert SegmentStart(s, 0, 6) == 4 && s[4..6] == "..";
    assert FileName(s) == None;
    assert DefaultOutputForCompress(s) == Push(s, s + GzSuffix);
  }

  /** That output's parent is "out/../out", not "out". */
  lemma NamelessOutputParent()
    ensures Parent("out/../out/...gz") == Some("out/../out")
  {
    var t := "out/../out/...gz";
    assert Lead(t) == [] && t[11..] == "...gz";
    NameAt(t, 11);
    assert TrimEnd(t, 0, 10) == 10 && t[..10] == "out/../out";
  }

  /** The root has no name either, and pushing the absolute "/.gz" replaces it. */
  lemma RootCompressOutput()
    ensures DefaultOutputForCompress("/") == "/.gz"
  {
    assert Lead("/") == [RootDir];
    assert FileName("/") == None;
  }

  datatype WriteCheckError = AlreadyExists | CreateDirFailed

  /**
   * `ensure_writable`: refuses an existing output unless forced, then creates
   * a non-empty parent directory; `mkdirSucceeds` is what `create_dir_all` returns.
   */
  function EnsureWritable(output: string, outputExists: bool, force: bool, mkdirSucceeds: bool): (r: Result<(), WriteCheckError>)
    ensures r == Err(AlreadyExists) <==> outputExists && !force
    ensures r == Err(CreateDirFailed) <==>
              !(outputExists && !force) && Parent(output).Some? && Parent(output).value != [] && !mkdirSucceeds
    ensures r.Ok? <==> !(outputExists && !force) && (Parent(output).None? || Parent(output).value == [] || mkdirSucceeds)
  {
    if outputExists && !force then Err(AlreadyExists)
    else match Parent(output)
      case Some(parent) => if parent != [] && !mkdirSucceeds then Err(CreateDirFailed) else Ok(())
      case None => Ok(())
  }

  /** "out/.." has the parent "out". */
  lemma OutDotDotParent()
    ensures Parent("out/..") == Some("out")
  {
    var s := "out/..";
    assert Lead(s) == [];
    assert TrimEnd(s, 0, 6) == 6;
    assert SegmentStart(s, 0, 6) == 4;
    assert TrimEnd(s, 0, 3) == 3;
    assert s[..3] == "out";
  }

  /** ".." alone has the empty path as its parent, and so has ".". */
  lemma DotDotParent()
    ensures Parent("..") == Some("")
    ensures Parent(".") == Some("")
  {
    var s := "..";
    assert Lead(s) == [];
    assert TrimEnd(s, 0, 2) == 2;
    assert SegmentStart(s, 0, 2) == 0;
    assert Lead(".") == [CurDir];
  }

  /** "/.." has the root as its parent. */
  lemma RootDotDotParent()
    ensures Parent("/..") == Some("/")
  {
    var s := "/..";
    assert Lead(s) == [RootDir];
    assert TrimEnd(s, 1, 3) == 3;
    assert SegmentStart(s, 1, 3) == 1;
    assert TrimEnd(s, 1, 1) == 1;
    assert s[..1] == "/";
  }

  /** The root and the empty path have no parent. */
  lemma RootHasNoParent()
    ensures Parent("/") == None
    ensures Parent("//") == None
    ensures Parent("") == None
  {
    assert Lead("/") == [RootDir] && Lead("//") == [RootDir];
    assert TrimEnd("//", 1, 2) == 1;
  }

  /** An output "out/.." gets its parent "out" created, so a failing `create_dir_all` is reported. */
  lemma EnsureWritableCreatesParentOfDotDot(force: bool)
    ensures EnsureWritable("out/..", false, force, false) == Err(CreateDirFailed)
  {
    OutDotDotParent();
  }

  /** The output "x/" of an input "x/.gz" has an empty parent, so nothing is created. */
  lemma EnsureWritableEmptyStem(force: bool)
    ensures EnsureWritable(DefaultOutputForDecompress("x/.gz"), false, force, false) == Ok(())
  {
    EmptyStemOutput();
  }

  /**
   * `same_path`: `==` on `Path`, which compares components.  Two paths that
   * are the same have the same file name and the same parent.
   */
  function SamePath(a: string, b: string): (r: bool)
    ensures r ==> FileName(a) == FileName(b)
    ensures r ==> (Parent(a).Some? <==> Parent(b).Some?)
    ensures r && Parent(a).Some? ==> Components(Parent(a).value) == Components(Parent(b).value)
  {
    FileNameIsLastComponent(a);
    FileNameIsLastComponent(b);
    ParentComponents(a);
    ParentComponents(b);
    Components(a) == Components(b)
  }

  /** A doubled separator is ignored: `d//m` is the same path as `d/m`. */
  lemma DoubledSeparatorIgnored(d: string, m: string)
    requires d != [] && PlainName(m)
    ensures SamePath(d + "//" + m, d + "/" + m)
  {
    var one := d + "/";
    var two := one + "/";
    AddSeparator(d);
    AddSeparator(one);
    PushPlainAfterSlash(two, m);
    PushPlainAfterSlash(one, m);
    assert two + m == d + "//" + m && one + m == d + "/" + m;
  }

  /** An inner `.` segment is ignored: `d/./m` is the same path as `d/m`. */
  lemma InnerDotIgnored(d: string, m: string)
    requires d != [] && PlainName(m)
    ensures SamePath(d + "/./" + m, d + "/" + m)
  {
    var dot := d + "/.";
    var dotSep := dot + "/";
    var one := d + "/";
    AddDotSegment(d);
    AddSeparator(dot);
    AddSeparator(d);
    PushPlainAfterSlash(dotSep, m);
    PushPlainAfterSlash(one, m);
    assert dotSep + m == d + "/./" + m && one + m == d + "/" + m;
  }

  /** A trailing separator is ignored: `p/` is the same path as `p`. */
  lemma TrailingSeparatorIgnored(p: string)
    requires p != []
    ensures SamePath(p + "/", p)
  {
    AddSeparator(p);
  }

  /** A leading `.` is a component of its own: "./a" is not "a". */
  lemma LeadingDotKept()
    ensures !SamePath("./a", "a")
  {
    assert Lead("./a") == [CurDir];
    assert Components("./a")[0] == CurDir;
    PushPlain("", "a");
    assert Push("", "a") == "a";
  }

  /** `..` is not resolved: "a/../b" is not "b", since their parents differ. */
  lemma DotDotKept()
    ensures !SamePath("a/../b", "b")
  {
    var p := "a/../b";
    assert Lead(p) == [] && p[5..] == "b";
    NameAt(p, 5);
    assert TrimEnd(p, 0, 4) == 4 && p[..4] == "a/..";
    assert Lead("a/..") == [] && TrimEnd("a/..", 0, 4) == 4;
    assert Components("a/..") != [];
    BareName("b");
  }

  /** Different names are different paths, whatever the directories: `b1/m1` is not `b2/m2` when `m1 != m2`. */
  lemma NamesDiffer(b1: string, b2: string, m1: string, m2: string)
    requires PlainName(m1) && PlainName(m2) && m1 != m2
    ensures !SamePath(Push(b1, m1), Push(b2, m2))
  {
    PushPlain(b1, m1);
    PushPlain(b2, m2);
  }
}
