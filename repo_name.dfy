/** The cache key of a lab: `construct_repo_name` in src/VMManager/VMManager.py,
    the last `/`-separated piece of the lab's URL with one trailing ".git" removed. */
module RepoNames {

  const GIT_SUFFIX := ".git"

  /** Python's `s.split('/')`: the pieces between slashes, in order. */
  function Split(s: string): (parts: seq<string>)
    ensures |parts| >= 1
    ensures forall i :: 0 <= i < |parts| ==> '/' !in parts[i]
    decreases |s|
  {
    if s == [] then [""]
    else
      var init := Split(s[..|s| - 1]);
      var c := s[|s| - 1];
      if c == '/' then init + [""]
      else init[..|init| - 1] + [init[|init| - 1] + [c]]
  }

  /** Python's `"/".join(parts)`. */
  function Join(parts: seq<string>): string
    requires |parts| >= 1
    decreases |parts|
  {
    if |parts| == 1 then parts[0] else Join(parts[..|parts| - 1]) + "/" + parts[|parts| - 1]
  }

  lemma JoinAppend(parts: seq<string>, p: string)
    requires |parts| >= 1
    ensures Join(parts + [p]) == Join(parts) + "/" + p
  {
    assert (parts + [p])[..|parts|] == parts;
  }

  lemma AppendAssoc(a: string, b: string, c: string)
    ensures (a + b) + c == a + (b + c)
  {
  }

  lemma JoinExtendLast(parts: seq<string>, t: string)
    requires |parts| >= 1
    ensures Join(parts[..|parts| - 1] + [parts[|parts| - 1] + t]) == Join(parts) + t
  {
    var init, last := parts[..|parts| - 1], parts[|parts| - 1];
    if init == [] {
      assert init + [last + t] == [last + t];
    } else {
      JoinAppend(init, last + t);
      AppendAssoc(Join(init) + "/", last, t);
    }
  }

  /** Joining the pieces back with slashes gives the original text. */
  lemma {:induction false} JoinSplit(s: string)
    ensures Join(Split(s)) == s
    decreases |s|
  {
    if s != [] {
      var s', c := s[..|s| - 1], s[|s| - 1];
      JoinSplit(s');
      assert s == s' + [c];
      if c == '/' {
        JoinAppend(Split(s'), "");
      } else {
        JoinExtendLast(Split(s'), [c]);
      }
    }
  }

  /** Appending text without a slash only lengthens the last piece. */
  lemma {:induction false} SplitAppendPlain(a: string, b: string)
    requires '/' !in b
    ensures var pa := Split(a); Split(a + b) == pa[..|pa| - 1] + [pa[|pa| - 1] + b]
    decreases |b|
  {
    var pa := Split(a);
    if b == [] {
      assert a + b == a;
      assert pa[|pa| - 1] + b == pa[|pa| - 1];
      assert pa[..|pa| - 1] + [pa[|pa| - 1] + b] == pa;
    } else {
      var b', c := b[..|b| - 1], b[|b| - 1];
      assert b == b' + [c];
      assert c != '/' && '/' !in b';
      SplitAppendPlain(a, b');
      assert (a + b)[..|a + b| - 1] == a + b';
      assert (a + b)[|a + b| - 1] == c;
      assert pa[|pa| - 1] + b' + [c] == pa[|pa| - 1] + b;
    }
  }

  /** Slash-free pieces joined with slashes split back into the same pieces. */
  lemma InitLast(parts: seq<string>)
    requires |parts| >= 1
    ensures parts == parts[..|parts| - 1] + [parts[|parts| - 1]]
  {
  }

  lemma {:induction false} SplitJoin(parts: seq<string>)
    requires |parts| >= 1
    requires forall i :: 0 <= i < |parts| ==> '/' !in parts[i]
    ensures Split(Join(parts)) == parts
    decreases |parts|
  {
    if |parts| == 1 {
      SplitAppendPlain("", parts[0]);
      assert "" + parts[0] == parts[0];
    } else {
      var init, last := parts[..|parts| - 1], parts[|parts| - 1];
      SplitJoin(init);
      var head := Join(init) + "/";
      assert head[..|head| - 1] == Join(init);
      assert Split(head) == init + [""];
      SplitAppendPlain(head, last);
      assert (init + [""])[..|init|] == init;
      assert "" + last == last;
      InitLast(parts);
    }
  }

  predicate EndsWith(s: string, suffix: string)
  {
    |suffix| <= |s| && s[|s| - |suffix|..] == suffix
  }

  /** `seg` is the text after the last slash of `url`, or all of `url` when it has none. */
  predicate IsFinalSegment(seg: string, url: string)
  {
    && '/' !in seg
    && EndsWith(url, seg)
    && (|seg| < |url| ==> url[|url| - |seg| - 1] == '/')
  }

  /** Python's `url.split('/')[-1]`. */
  function LastSegment(url: string): (seg: string)
    ensures '/' !in seg
  {
    var parts := Split(url);
    parts[|parts| - 1]
  }

  lemma {:induction false} LastSegmentIsFinal(url: string)
    ensures IsFinalSegment(LastSegment(url), url)
    decreases |url|
  {
    if url != [] {
      var url', c := url[..|url| - 1], url[|url| - 1];
      assert url == url' + [c];
      if c != '/' {
        LastSegmentIsFinal(url');
        assert LastSegment(url) == LastSegment(url') + [c];
      }
    }
  }

  lemma FinalSegmentSlashFree(seg: string, url: string)
    requires IsFinalSegment(seg, url)
    ensures forall k :: |url| - |seg| <= k < |url| ==> url[k] != '/'
  {
    forall k | |url| - |seg| <= k < |url|
      ensures url[k] != '/'
    {
      assert url[k] == seg[k - (|url| - |seg|)];
    }
  }

  /** At most one piece of text is the final segment of a URL. */
  lemma FinalSegmentUnique(seg1: string, seg2: string, url: string)
    requires IsFinalSegment(seg1, url) && IsFinalSegment(seg2, url)
    ensures seg1 == seg2
  {
    FinalSegmentSlashFree(seg1, url);
    FinalSegmentSlashFree(seg2, url);
    assert |seg1| == |seg2|;
  }

  /** Python's `s[-n:]`: the last `n` characters, or all of `s` when it is shorter. */
  function PyLast(s: string, n: nat): string
  {
    if |s| <= n then s else s[|s| - n..]
  }

  /** `construct_repo_name`: the final segment, less one trailing ".git". */
  function ConstructRepoName(url: string): (name: string)
    ensures '/' !in name
  {
    var repo := LastSegment(url);
    if PyLast(repo, 4) == GIT_SUFFIX then repo[..|repo| - 4] else repo
  }

  /** The name is the final segment with exactly one ".git" removed when it
      ends in ".git", and the final segment itself otherwise. */
  lemma RepoNameSpec(url: string)
    ensures EndsWith(LastSegment(url), GIT_SUFFIX) ==> ConstructRepoName(url) + GIT_SUFFIX == LastSegment(url)
    ensures !EndsWith(LastSegment(url), GIT_SUFFIX) ==> ConstructRepoName(url) == LastSegment(url)
  {
  }

  /** The name in terms of the URL alone: whatever follows the last slash,
      less one trailing ".git" when it has one. */
  lemma RepoNameOfFinalSegment(url: string, seg: string)
    requires IsFinalSegment(seg, url)
    ensures EndsWith(seg, GIT_SUFFIX) ==> ConstructRepoName(url) + GIT_SUFFIX == seg
    ensures !EndsWith(seg, GIT_SUFFIX) ==> ConstructRepoName(url) == seg
  {
    LastSegmentIsFinal(url);
    FinalSegmentUnique(seg, LastSegment(url), url);
    RepoNameSpec(url);
  }

  /** A URL with ".git" appended is named after the URL's own final segment. */
  lemma AppendGitName(url: string)
    ensures ConstructRepoName(url + GIT_SUFFIX) == LastSegment(url)
  {
    var seg, name := LastSegment(url), ConstructRepoName(url + GIT_SUFFIX);
    assert LastSegment(url + GIT_SUFFIX) == seg + GIT_SUFFIX by {
      SplitAppendPlain(url, GIT_SUFFIX);
    }
    assert name + GIT_SUFFIX == seg + GIT_SUFFIX by {
      RepoNameSpec(url + GIT_SUFFIX);
      assert (seg + GIT_SUFFIX)[|seg|..] == GIT_SUFFIX;
    }
    assert name == (name + GIT_SUFFIX)[..|name|];
    assert seg == (seg + GIT_SUFFIX)[..|seg|];
  }

  /** Appending ".git" leaves the name unchanged exactly when the final segment
      did not already end in ".git" ("a/x" and "a/x.git" are both "x", but
      "a/x.git.git" is "x.git", not "x"). */
  lemma AppendGitKeepsName(url: string)
    ensures ConstructRepoName(url + GIT_SUFFIX) == ConstructRepoName(url)
        <==> !EndsWith(LastSegment(url), GIT_SUFFIX)
  {
    AppendGitName(url);
    RepoNameSpec(url);
    var seg := LastSegment(url);
    if EndsWith(seg, GIT_SUFFIX) {
      assert |ConstructRepoName(url)| == |seg| - 4;
    }
  }

  /** Only one ".git" is stripped: a segment ending in ".git.git" gives a name
      that still ends in ".git". */
  lemma StripsOnce(url: string)
    requires EndsWith(LastSegment(url), ".git.git")
    ensures EndsWith(ConstructRepoName(url), GIT_SUFFIX)
  {
    var seg := LastSegment(url);
    assert seg[|seg| - 4..] == GIT_SUFFIX;
    var name := ConstructRepoName(url);
    assert name == seg[..|seg| - 4];
    assert name[|name| - 4..] == seg[|seg| - 8..|seg| - 4];
  }

  /** A URL without a slash is its own final segment. */
  lemma SlashFreeIsLast(url: string)
    requires '/' !in url
    ensures LastSegment(url) == url
  {
    SplitJoin([url]);
  }

  /** So the name is not idempotent. */
  lemma NotIdempotent()
    ensures ConstructRepoName("x.git.git") == "x.git"
    ensures ConstructRepoName(ConstructRepoName("x.git.git")) == "x"
  {
    assert ConstructRepoName("x.git.git") == "x.git" by {
      SlashFreeIsLast("x.git.git");
      assert PyLast("x.git.git", 4) == GIT_SUFFIX;
    }
    assert ConstructRepoName("x.git") == "x" by {
      SlashFreeIsLast("x.git");
      assert PyLast("x.git", 4) == GIT_SUFFIX;
    }
  }

  /** A URL that ends in a slash has the empty name (its cache directory is
      the cache root itself). */
  lemma TrailingSlashEmptyName(url: string)
    requires |url| > 0 && url[|url| - 1] == '/'
    ensures ConstructRepoName(url) == ""
  {
    assert url == url[..|url| - 1] + ['/'];
  }
}
