/** Hostname normalisation of a story's URL (`getHostName`), together with the
    JavaScript string operations it is built from: `indexOf`, `split("/")`,
    `slice`, and `join("/")` as the inverse of `split("/")`. */
module HostName {

  /** `pat` occurs in `s` starting at index `i`. */
  predicate OccursAt(s: string, pat: string, i: int)
  {
    0 <= i && i + |pat| <= |s| && s[i..i + |pat|] == pat
  }

  /** JavaScript `s.indexOf(pat, from)` for a non-empty `pat`: the first
      occurrence at or after `from`, or -1. */
  function IndexFrom(s: string, pat: string, from: nat): (r: int)
    ensures r == -1 || (from <= r && OccursAt(s, pat, r))
    ensures forall i :: from <= i && (r == -1 || i < r) ==> !OccursAt(s, pat, i)
    decreases |s| - from
  {
    if from + |pat| > |s| then -1
    else if OccursAt(s, pat, from) then from
    else IndexFrom(s, pat, from + 1)
  }

  /** JavaScript `s.indexOf(pat)`. */
  function IndexOf(s: string, pat: string): (r: int)
    ensures r == -1 <==> forall i :: !OccursAt(s, pat, i)
    ensures r != -1 ==> OccursAt(s, pat, r) && forall i :: 0 <= i < r ==> !OccursAt(s, pat, i)
  {
    IndexFrom(s, pat, 0)
  }

  /** JavaScript `s.split("/")`: the pieces between slashes, in order.
      There is always at least one piece, and no piece holds a slash. */
  function Split(s: string): (pieces: seq<string>)
    ensures |pieces| >= 1
    ensures forall k :: 0 <= k < |pieces| ==> '/' !in pieces[k]
  {
    if |s| == 0 then [""]
    else
      var rest := Split(s[1..]);
      if s[0] == '/' then [""] + rest
      else [[s[0]] + rest[0]] + rest[1..]
  }

  /** JavaScript `pieces.join("/")`. */
  function Join(pieces: seq<string>): string
    requires |pieces| >= 1
  {
    if |pieces| == 1 then pieces[0] else pieces[0] + "/" + Join(pieces[1..])
  }

  /** Joining the pieces of a split with slashes gives back the original string,
      so `Split` loses nothing but the separators. */
  lemma {:induction false} JoinSplit(s: string)
    ensures Join(Split(s)) == s
  {
    if |s| > 0 {
      var rest := Split(s[1..]);
      JoinSplit(s[1..]);
      if s[0] == '/' {
        assert ([""] + rest)[1..] == rest;
        assert Join(Split(s)) == "" + "/" + Join(rest);
        assert s == "/" + s[1..];
      } else {
        var head := [s[0]] + rest[0];
        assert ([head] + rest[1..])[1..] == rest[1..];
        if |rest| == 1 {
          assert Join(Split(s)) == head;
        } else {
          assert Join(Split(s)) == head + "/" + Join(rest[1..]);
          assert Join(rest) == rest[0] + "/" + Join(rest[1..]);
        }
        assert s == [s[0]] + s[1..];
      }
    }
  }

  /** A slash at the front of a string gives an empty first piece. */
  lemma SplitAfterSlash(b: string)
    ensures Split("/" + b) == [""] + Split(b)
  {
    assert ("/" + b)[1..] == b;
  }

  /** A slash-free prefix becomes the front of the first piece. */
  lemma {:induction false} SplitPrefix(a: string, b: string)
    requires '/' !in a
    ensures Split(a + b) == [a + Split(b)[0]] + Split(b)[1..]
  {
    if |a| == 0 {
      assert a + b == b;
      assert a + Split(b)[0] == Split(b)[0];
      assert [Split(b)[0]] + Split(b)[1..] == Split(b);
    } else {
      assert (a + b)[1..] == a[1..] + b;
      SplitPrefix(a[1..], b);
      assert [a[0]] + (a[1..] + Split(b)[0]) == a + Split(b)[0];
    }
  }

  /** An empty string, or one that starts with a slash, has an empty first piece. */
  lemma SplitFirstEmpty(rest: string)
    requires rest == [] || rest[0] == '/'
    ensures Split(rest)[0] == ""
  {
    if rest != [] {
      assert rest == "/" + rest[1..];
      SplitAfterSlash(rest[1..]);
    }
  }

  /** When `"://"` occurs in `s`, `s.split("/")` has an element at index 2. */
  lemma {:induction false} SplitHasThreeAfterScheme(s: string, i: nat)
    requires OccursAt(s, "://", i)
    ensures |Split(s)| >= 3
    decreases i
  {
    if i == 0 {
      assert s[0] == ':' && s[1] == '/' && s[2] == '/';
      assert s[1..][1..] == s[2..];
      assert |Split(s[2..])| == 1 + |Split(s[3..])|;
      assert |Split(s[1..])| == 1 + |Split(s[2..])|;
    } else {
      assert s[1..][i - 1..i + 2] == s[i..i + 3];
      SplitHasThreeAfterScheme(s[1..], i - 1);
    }
  }

  /** JavaScript `s.slice(0, n)`, which stops at the end of a shorter string. */
  function SliceTo(s: string, n: nat): (r: string)
    ensures r <= s
    ensures |r| == if n <= |s| then n else |s|
  {
    if n <= |s| then s[..n] else s
  }

  /** Removes one leading `"www."`; a string without that prefix, including any
      string shorter than four characters, is returned unchanged. */
  function StripWww(host: string): (r: string)
    ensures |host| >= 4 && host[..4] == "www." ==> host == "www." + r
    ensures !(|host| >= 4 && host[..4] == "www.") ==> r == host
  {
    if SliceTo(host, 4) == "www." then host[4..] else host
  }

  /** Exactly one prefix is removed: `"www.www.x"` becomes `"www.x"`. */
  lemma StripWwwOnce(rest: string)
    ensures StripWww("www." + rest) == rest
  {
    assert ("www." + rest)[..4] == "www.";
    assert ("www." + rest)[4..] == rest;
  }

  /** `getHostName`: the third slash-separated piece of a URL holding `"://"`,
      otherwise the first piece, without one leading `"www."`.  The piece at
      index 2 always exists, and the result never holds a slash. */
  function GetHostName(url: string): (r: string)
    ensures '/' !in r
    ensures |r| <= |url|
  {
    var pieces := Split(url);
    var at := IndexOf(url, "://");
    var host :=
      if at > -1 then
        SplitHasThreeAfterScheme(url, at);
        pieces[2]
      else pieces[0];
    JoinSplit(url);
    PieceNoLonger(pieces, if at > -1 then 2 else 0);
    StripWww(host)
  }

  /** No piece is longer than the string the pieces were joined into. */
  lemma {:induction false} PieceNoLonger(pieces: seq<string>, k: nat)
    requires k < |pieces|
    ensures |pieces[k]| <= |Join(pieces)|
  {
    if |pieces| > 1 && k > 0 {
      PieceNoLonger(pieces[1..], k - 1);
    }
  }

  /** For `scheme://host` followed by nothing or by a path starting with a
      slash, the hostname is `host` without a leading `"www."`. */
  lemma HostNameOfSchemeUrl(scheme: string, host: string, rest: string)
    requires '/' !in scheme && '/' !in host
    requires rest == [] || rest[0] == '/'
    ensures GetHostName(scheme + "://" + host + rest) == StripWww(host)
  {
    var url := scheme + "://" + host + rest;
    var tail := host + rest;
    assert url[|scheme|..|scheme| + 3] == "://";
    assert OccursAt(url, "://", |scheme|);
    assert IndexOf(url, "://") != -1;
    assert url == (scheme + ":") + ("/" + ("/" + tail));
    SplitPrefix(scheme + ":", "/" + ("/" + tail));
    SplitAfterSlash("/" + tail);
    SplitAfterSlash(tail);
    SplitPrefix(host, rest);
    SplitFirstEmpty(rest);
    assert Split(url)[2] == Split(tail)[0] == host;
  }

  /** For a URL without `"://"`, the hostname is everything before the first
      slash, without a leading `"www."`. */
  lemma HostNameOfBareUrl(host: string, rest: string)
    requires '/' !in host
    requires rest == [] || rest[0] == '/'
    requires IndexOf(host + rest, "://") == -1
    ensures GetHostName(host + rest) == StripWww(host)
  {
    SplitPrefix(host, rest);
    SplitFirstEmpty(rest);
  }

  /** A URL without a scheme whose path holds `"://"` (a query such as
      `?to=http://x`) takes its hostname from the piece at index 2, which is
      empty here, instead of the part before the first slash. */
  lemma HostNameOfSchemeInPath(host: string, path: string, tail: string)
    requires '/' !in host && '/' !in path
    ensures GetHostName(host + "/" + path + "://" + tail) == ""
  {
    var url := host + "/" + path + "://" + tail;
    assert url[|host| + 1 + |path|..|host| + 1 + |path| + 3] == "://";
    assert OccursAt(url, "://", |host| + 1 + |path|);
    assert IndexOf(url, "://") != -1;
    assert url == host + ("/" + ((path + ":") + ("/" + ("/" + tail))));
    SplitPrefix(host, "/" + ((path + ":") + ("/" + ("/" + tail))));
    SplitAfterSlash((path + ":") + ("/" + ("/" + tail)));
    SplitPrefix(path + ":", "/" + ("/" + tail));
    SplitAfterSlash("/" + tail);
    SplitAfterSlash(tail);
    assert Split(url)[2] == "";
  }
}
