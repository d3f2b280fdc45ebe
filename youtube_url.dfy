/**
 * `extractVideoId` (server/services/aiAnalysis.js): the first match of
 *
 *   (?:youtube\.com\/(?:[^\/]+\/.+\/|(?:v|e(?:mbed)?)\/|.*[?&]v=)|youtu\.be\/)([^"&?\/\s]{11})
 *
 * in a URL, and its captured group. The regex is modelled as the JavaScript
 * engine runs it: the match starts at the leftmost position where it can,
 * alternatives are tried left to right, a greedy `.+`/`.*` keeps as much as
 * it can (so the largest end that lets the rest match is taken), and `.`
 * matches everything but a line terminator.
 */
module YoutubeUrl {
  import opened Wrappers
  import opened JsText

  const IdLength := 11

  /** The character class `[^"&?\/\s]` of the captured id. */
  predicate IsIdChar(c: char) {
    c != '"' && c != '&' && c != '?' && c != '/' && !IsWhitespace(c)
  }

  /** A possible result: eleven id characters. */
  predicate IsVideoId(s: string) {
    |s| == IdLength && forall i :: 0 <= i < |s| ==> IsIdChar(s[i])
  }

  /** `s` occurs somewhere in `u`. */
  ghost predicate Occurs(u: string, s: string) {
    exists k: nat :: HasAt(u, k, s)
  }

  /** One of the two host prefixes of the regex starts at `p`. */
  predicate HostAt(u: string, p: nat) {
    HasAt(u, p, "youtube.com/") || HasAt(u, p, "youtu.be/")
  }

  /** The group `([^"&?\/\s]{11})` at position `i`. */
  function IdAt(u: string, i: nat): (r: Option<string>)
    ensures r.Some? ==> IsVideoId(r.value) && HasAt(u, i, r.value) && Occurs(u, r.value)
    ensures r.None? <==> !(i + IdLength <= |u| && IsVideoId(u[i..i + IdLength]))
  {
    if i + IdLength <= |u| && IsVideoId(u[i..i + IdLength]) then Some(u[i..i + IdLength]) else None
  }

  /** The end of the run of non-line-terminators starting at `i`: how far `.*` can reach. */
  function RunEnd(u: string, i: nat): (e: nat)
    requires i <= |u|
    ensures i <= e <= |u|
    ensures forall k :: i <= k < e ==> !IsLineTerminator(u[k])
    ensures e < |u| ==> IsLineTerminator(u[e])
    decreases |u| - i
  {
    if i == |u| || IsLineTerminator(u[i]) then i else RunEnd(u, i + 1)
  }

  /**
   * The tail `.+\/` + id of the first alternative, `.+` starting at `lo`:
   * the largest `q <= hi` with `lo < q`, `u[q] == '/'` and an id after it.
   */
  function LastSlashThenId(u: string, lo: nat, hi: int): (r: Option<string>)
    ensures r.Some? ==> IsVideoId(r.value) && Occurs(u, r.value)
    decreases hi
  {
    if hi <= lo then None
    else if hi < |u| && u[hi] == '/' && IdAt(u, hi + 1).Some? then IdAt(u, hi + 1)
    else LastSlashThenId(u, lo, hi - 1)
  }

  /** `[?&]v=` at position `k`. */
  predicate QueryVAt(u: string, k: nat) {
    k + 3 <= |u| && (u[k] == '?' || u[k] == '&') && u[k + 1] == 'v' && u[k + 2] == '='
  }

  /**
   * The tail `[?&]v=` + id of the third alternative, `.*` starting at `lo`:
   * the largest `k <= hi` with `lo <= k`, `[?&]v=` at `k` and an id after it.
   */
  function LastQueryThenId(u: string, lo: nat, hi: int): (r: Option<string>)
    ensures r.Some? ==> IsVideoId(r.value) && Occurs(u, r.value)
    decreases hi
  {
    if hi < lo then None
    else if QueryVAt(u, hi) && IdAt(u, hi + 3).Some? then IdAt(u, hi + 3)
    else LastQueryThenId(u, lo, hi - 1)
  }

  /** `.+\/` + id of the first alternative, `.+` starting at `start` and greedy up to a line terminator. */
  function SlashTail(u: string, start: nat): (r: Option<string>)
    requires start <= |u|
    ensures r.Some? ==> IsVideoId(r.value) && Occurs(u, r.value)
  {
    LastSlashThenId(u, start, RunEnd(u, start))
  }

  /**
   * `[^\/]+\/.+\/` + id after `youtube.com/` at `i`: `[^\/]+` can only end at
   * the first '/' after `i`.
   */
  function PathForm(u: string, i: nat): (r: Option<string>)
    requires i <= |u|
    ensures r.Some? ==> IsVideoId(r.value) && Occurs(u, r.value)
  {
    match IndexOf(u[i..], '/')
    case None => None
    case Some(n) => if n == 0 then None else SlashTail(u, i + n + 1)
  }

  /** `(?:v|e(?:mbed)?)\/` + id after `youtube.com/` at `i`. */
  function PrefixForm(u: string, i: nat): (r: Option<string>)
    ensures r.Some? ==> IsVideoId(r.value) && Occurs(u, r.value)
  {
    if HasAt(u, i, "v/") && IdAt(u, i + 2).Some? then IdAt(u, i + 2)
    else if HasAt(u, i, "embed/") && IdAt(u, i + 6).Some? then IdAt(u, i + 6)
    else if HasAt(u, i, "e/") then IdAt(u, i + 2)
    else None
  }

  /** `.*[?&]v=` + id after `youtube.com/` at `i`. */
  function QueryForm(u: string, i: nat): (r: Option<string>)
    requires i <= |u|
    ensures r.Some? ==> IsVideoId(r.value) && Occurs(u, r.value)
  {
    LastQueryThenId(u, i, RunEnd(u, i))
  }

  /** The regex anchored at position `p`: its captured group if it matches there. */
  function MatchAt(u: string, p: nat): (r: Option<string>)
    ensures r.Some? ==> IsVideoId(r.value) && Occurs(u, r.value)
    ensures r.Some? ==> HostAt(u, p)
  {
    if HasAt(u, p, "youtube.com/") then
      var i := p + 12;
      var path := PathForm(u, i);
      if path.Some? then path
      else
        var prefix := PrefixForm(u, i);
        if prefix.Some? then prefix else QueryForm(u, i)
    else if HasAt(u, p, "youtu.be/") then IdAt(u, p + 9)
    else None
  }

  /** The first match starting at `p` or later. */
  function FirstMatchFrom(u: string, p: nat): (r: Option<string>)
    ensures r.Some? ==> IsVideoId(r.value) && Occurs(u, r.value)
    ensures r.Some? ==> exists q: nat :: p <= q && HostAt(u, q)
    decreases |u| - p
  {
    if p >= |u| then None
    else
      var here := MatchAt(u, p);
      if here.Some? then here else FirstMatchFrom(u, p + 1)
  }

  /** `extractVideoId(url)`: the captured id, or `null` when the regex does not match. */
  function ExtractVideoId(url: string): (r: Option<string>)
    ensures r.Some? ==> IsVideoId(r.value) && Occurs(url, r.value)
    ensures r.Some? ==> exists q: nat :: HostAt(url, q)
  {
    FirstMatchFrom(url, 0)
  }

  // ---- Properties of the regex on the URL shapes it is written for ----

  /** Positions where no host prefix starts cannot start a match. */
  lemma {:induction false} SkipToHost(u: string, p: nat, target: nat)
    requires p <= target <= |u|
    requires forall q: nat :: p <= q < target ==> !HostAt(u, q)
    ensures FirstMatchFrom(u, p) == FirstMatchFrom(u, target)
    decreases target - p
  {
    if p < target {
      assert MatchAt(u, p).None?;
      SkipToHost(u, p + 1, target);
    }
  }

  /** A prefix without the letter 'y' holds no host prefix, not even one running past it. */
  lemma NoHostInPrefix(pre: string, tail: string)
    requires 'y' !in pre
    ensures forall q: nat :: q < |pre| ==> !HostAt(pre + tail, q)
  {
    var u := pre + tail;
    forall q: nat | q < |pre| ensures !HostAt(u, q) {
      assert u[q] == pre[q];
    }
  }

  /** What occurs in `tail` at `i` occurs in `pre + tail` at `|pre| + i`. */
  lemma HasAtShift(pre: string, tail: string, i: nat, lit: string)
    requires HasAt(tail, i, lit)
    ensures HasAt(pre + tail, |pre| + i, lit)
  {
    assert (pre + tail)[|pre| + i..|pre| + i + |lit|] == tail[i..i + |lit|];
  }

  /** A literal starts the string it is put in front of. */
  lemma HasAtFront(lit: string, tail: string)
    ensures HasAt(lit + tail, 0, lit)
  {
    assert (lit + tail)[..|lit|] == lit;
  }

  /** `.*` starting at `i` reaches at least past a stretch without line terminators. */
  lemma RunEndReaches(u: string, i: nat, k: nat)
    requires i <= k <= |u|
    requires forall j :: i <= j < k ==> !IsLineTerminator(u[j])
    ensures k <= RunEnd(u, i)
  {
  }

  /** With no '/' after `lo`, the greedy `.+\/` of the first alternative finds nothing. */
  lemma {:induction false} NoSlashNoPath(u: string, lo: nat, hi: int)
    requires forall k :: lo < k < |u| ==> u[k] != '/'
    ensures LastSlashThenId(u, lo, hi).None?
    decreases hi
  {
    if hi > lo {
      NoSlashNoPath(u, lo, hi - 1);
    }
  }

  /** The greedy `.*` backs off over positions where `[?&]v=` does not start. */
  lemma {:induction false} QuerySkipsBack(u: string, lo: nat, hi: int, k: nat)
    requires lo <= k <= hi
    requires forall j: nat :: k < j <= hi ==> !QueryVAt(u, j)
    ensures LastQueryThenId(u, lo, hi) == LastQueryThenId(u, lo, k)
    decreases hi
  {
    if hi > k {
      QuerySkipsBack(u, lo, hi - 1, k);
    }
  }

  /** When the leftmost host prefix is at `p` and the regex matches there, that match is the result. */
  lemma {:induction false} FirstMatchAt(u: string, p: nat, id: string)
    requires p < |u|
    requires forall q: nat :: q < p ==> !HostAt(u, q)
    requires MatchAt(u, p) == Some(id)
    ensures ExtractVideoId(u) == Some(id)
  {
    SkipToHost(u, 0, p);
  }

  /** `youtu.be/` followed by an id matches at once. */
  lemma ShortFormAt(u: string, p: nat, id: string)
    requires HasAt(u, p, "youtu.be/") && HasAt(u, p + 9, id) && IsVideoId(id)
    ensures MatchAt(u, p) == Some(id)
  {
    assert u[p + 5] == u[p..p + 9][5] == '.';
    assert u[p..p + 12][5] == u[p + 5];
    assert !HasAt(u, p, "youtube.com/");
    assert IdAt(u, p + 9) == Some(id);
  }

  /** A short link yields the eleven characters after `youtu.be/`, whatever follows them. */
  lemma ShortLinkId(pre: string, id: string, rest: string)
    requires 'y' !in pre
    requires IsVideoId(id)
    ensures ExtractVideoId(pre + "youtu.be/" + id + rest) == Some(id)
  {
    var host := "youtu.be/";
    var tail := host + (id + rest);
    var u := pre + tail;
    var p := |pre|;
    assert pre + host + id + rest == u;
    NoHostInPrefix(pre, tail);
    HasAtFront(host, id + rest);
    HasAtShift(pre, tail, 0, host);
    HasAtFront(id, rest);
    HasAtShift(host, id + rest, 0, id);
    HasAtShift(pre, tail, 9, id);
    ShortFormAt(u, p, id);
    FirstMatchAt(u, p, id);
  }

  /** Without a '/' after `youtube.com/`, the path form cannot match. */
  lemma NoPathForm(u: string, i: nat)
    requires i <= |u| && '/' !in u[i..]
    ensures PathForm(u, i).None?
  {
  }

  /** The greedy `.*[?&]v=` settles on `k` when no `[?&]v=` starts after it. */
  lemma QueryFormFinds(u: string, i: nat, k: nat, id: string)
    requires i <= k && QueryVAt(u, k)
    requires forall j :: i <= j < k ==> !IsLineTerminator(u[j])
    requires HasAt(u, k + 3, id) && IsVideoId(id)
    requires forall j: nat :: k < j ==> !QueryVAt(u, j)
    ensures QueryForm(u, i) == Some(id)
  {
    RunEndReaches(u, i, k);
    QuerySkipsBack(u, i, RunEnd(u, i), k);
    assert IdAt(u, k + 3) == Some(id);
  }

  /** The characters of a string found at `p`, one by one. */
  lemma CharsAt(u: string, p: nat, lit: string)
    requires HasAt(u, p, lit)
    ensures forall j :: 0 <= j < |lit| ==> u[p + j] == lit[j]
  {
    forall j | 0 <= j < |lit| ensures u[p + j] == lit[j] {
      assert u[p + j] == u[p..p + |lit|][j];
    }
  }

  /**
   * `watch?v=` followed by an id, with no '/' and no `[?&]v=` after it, holds
   * no '/', and its `?v=` is the last `[?&]v=`.
   */
  lemma WatchTailHasNoSlash(u: string, i: nat, id: string)
    requires HasAt(u, i, "watch?v=") && HasAt(u, i + 8, id) && IsVideoId(id)
    requires forall j :: i + 8 + IdLength <= j < |u| ==> u[j] != '/'
    requires forall j: nat :: i + 8 + IdLength <= j ==> !QueryVAt(u, j)
    ensures forall j :: i <= j < |u| ==> u[j] != '/'
    ensures forall j: nat :: i + 5 < j ==> !QueryVAt(u, j)
  {
    CharsAt(u, i, "watch?v=");
    CharsAt(u, i + 8, id);
    forall j | i <= j < i + 8 + IdLength
      ensures u[j] != '/' && (i + 5 < j ==> u[j] != '?' && u[j] != '&')
    {
      if j < i + 8 {
        assert u[i + (j - i)] == "watch?v="[j - i];
      } else {
        assert u[i + 8 + (j - i - 8)] == id[j - i - 8];
      }
    }
  }

  /** `youtube.com/` then `watch?v=` followed by an id, with no '/' and no `[?&]v=` after it, matches. */
  lemma WatchFormAt(u: string, p: nat, id: string)
    requires HasAt(u, p, "youtube.com/") && HasAt(u, p + 12, "watch?v=")
    requires HasAt(u, p + 20, id) && IsVideoId(id)
    requires forall j :: p + 20 + IdLength <= j < |u| ==> u[j] != '/'
    requires forall j: nat :: p + 20 + IdLength <= j ==> !QueryVAt(u, j)
    ensures MatchAt(u, p) == Some(id)
  {
    var i := p + 12;
    WatchTailHasNoSlash(u, i, id);
    assert '/' !in u[i..];
    NoPathForm(u, i);
    CharsAt(u, i, "watch?v=");
    assert u[i + 0] == 'w';
    assert PrefixForm(u, i).None?;
    assert u[i + 5] == '?' && u[i + 6] == 'v' && u[i + 7] == '=';
    forall j | i <= j < i + 5 ensures !IsLineTerminator(u[j]) {
      assert u[i + (j - i)] == "watch?v="[j - i];
    }
    QueryFormFinds(u, i, i + 5, id);
  }

  /** A URL built from a host prefix and a path, regrouped around its tail. */
  lemma Regroup(pre: string, host: string, path: string, id: string, rest: string)
    ensures pre + (host + path) + id + rest == pre + (host + (path + (id + rest)))
  {
  }

  /** The host prefix and the path of a watch URL, written as one literal. */
  lemma WatchLiteral()
    ensures "youtube.com/" + "watch?v=" == "youtube.com/watch?v="
  {
  }

  /**
   * A watch URL yields the value of `v` when no '/' and no other `?v=` or
   * `&v=` follows it: further parameters such as `&t=42s` are fine.
   */
  lemma WatchLinkId(pre: string, id: string, rest: string)
    requires 'y' !in pre
    requires IsVideoId(id)
    requires '/' !in rest
    requires forall j: nat :: j < |rest| ==> !QueryVAt(rest, j)
    ensures ExtractVideoId(pre + "youtube.com/watch?v=" + id + rest) == Some(id)
  {
    var host, path := "youtube.com/", "watch?v=";
    var tail := host + (path + (id + rest));
    var u := pre + tail;
    var p := |pre|;
    WatchLiteral();
    Regroup(pre, host, path, id, rest);
    NoHostInPrefix(pre, tail);
    HasAtFront(host, path + (id + rest));
    HasAtShift(pre, tail, 0, host);
    HasAtFront(path, id + rest);
    HasAtShift(host, path + (id + rest), 0, path);
    HasAtShift(pre, tail, 12, path);
    HasAtFront(id, rest);
    HasAtShift(path, id + rest, 0, id);
    HasAtShift(host, path + (id + rest), 8, id);
    HasAtShift(pre, tail, 20, id);
    var off := p + 20 + IdLength;
    forall j | off <= j < |u| ensures u[j] == rest[j - off] {
    }
    forall j: nat | off <= j ensures QueryVAt(u, j) == QueryVAt(rest, j - off) {
    }
    WatchFormAt(u, p, id);
    FirstMatchAt(u, p, id);
  }

  /** `embed/` followed by an id, with no '/' after it, has its only '/' at position 5. */
  lemma EmbedTailSlashes(u: string, i: nat, id: string)
    requires HasAt(u, i, "embed/") && HasAt(u, i + 6, id) && IsVideoId(id)
    requires forall j :: i + 6 + IdLength <= j < |u| ==> u[j] != '/'
    ensures IndexOf(u[i..], '/') == Some(5)
    ensures forall j :: i + 6 < j < |u| ==> u[j] != '/'
  {
    CharsAt(u, i, "embed/");
    CharsAt(u, i + 6, id);
    forall j | 0 <= j < 5 ensures u[i..][j] != '/' {
      assert u[i + j] == "embed/"[j];
    }
    assert u[i..][5] == u[i + 5] == '/';
    forall j | i + 6 < j < |u| ensures u[j] != '/' {
      if j < i + 6 + IdLength {
        assert u[i + 6 + (j - i - 6)] == id[j - i - 6];
      }
    }
  }

  /** After `embed/` and an id with no '/' behind it, the path form of the first alternative fails. */
  lemma EmbedNoPath(u: string, i: nat, id: string)
    requires HasAt(u, i, "embed/") && HasAt(u, i + 6, id) && IsVideoId(id)
    requires forall j :: i + 6 + IdLength <= j < |u| ==> u[j] != '/'
    ensures PathForm(u, i).None?
  {
    // `[^\/]+` is "embed", then `.+\/` finds no second '/'
    EmbedTailSlashes(u, i, id);
    NoSlashNoPath(u, i + 6, RunEnd(u, i + 6));
  }

  /** `embed/` and an id match the second alternative. */
  lemma EmbedPrefix(u: string, i: nat, id: string)
    requires HasAt(u, i, "embed/") && HasAt(u, i + 6, id) && IsVideoId(id)
    ensures PrefixForm(u, i) == Some(id)
  {
    CharsAt(u, i, "embed/");
    assert u[i + 0] == 'e' && u[i + 1] == 'm';
    assert !HasAt(u, i, "v/");
    assert IdAt(u, i + 6) == Some(id);
  }

  /** `youtube.com/` then `embed/` followed by an id, with no '/' after it, matches. */
  lemma EmbedFormAt(u: string, p: nat, id: string)
    requires HasAt(u, p, "youtube.com/") && HasAt(u, p + 12, "embed/")
    requires HasAt(u, p + 18, id) && IsVideoId(id)
    requires forall j :: p + 18 + IdLength <= j < |u| ==> u[j] != '/'
    ensures MatchAt(u, p) == Some(id)
  {
    EmbedNoPath(u, p + 12, id);
    EmbedPrefix(u, p + 12, id);
  }

  /** The host prefix and the path of an embed URL, written as one literal. */
  lemma EmbedLiteral()
    ensures "youtube.com/" + "embed/" == "youtube.com/embed/"
  {
  }

  /** An embed URL yields the eleven characters after `embed/` when no '/' follows them. */
  lemma EmbedLinkId(pre: string, id: string, rest: string)
    requires 'y' !in pre
    requires IsVideoId(id)
    requires '/' !in rest
    ensures ExtractVideoId(pre + "youtube.com/embed/" + id + rest) == Some(id)
  {
    var host, path := "youtube.com/", "embed/";
    var tail := host + (path + (id + rest));
    var u := pre + tail;
    var p := |pre|;
    EmbedLiteral();
    Regroup(pre, host, path, id, rest);
    NoHostInPrefix(pre, tail);
    HasAtFront(host, path + (id + rest));
    HasAtShift(pre, tail, 0, host);
    HasAtFront(path, id + rest);
    HasAtShift(host, path + (id + rest), 0, path);
    HasAtShift(pre, tail, 12, path);
    HasAtFront(id, rest);
    HasAtShift(path, id + rest, 0, id);
    HasAtShift(host, path + (id + rest), 6, id);
    HasAtShift(pre, tail, 18, id);
    forall j | p + 18 + IdLength <= j < |u| ensures u[j] == rest[j - p - 18 - IdLength] {
    }
    EmbedFormAt(u, p, id);
    FirstMatchAt(u, p, id);
  }

  /** The greedy `.+\/` backs off over positions after the last '/'. */
  lemma {:induction false} SlashSkipsBack(u: string, lo: nat, hi: int, q: nat)
    requires lo <= q <= hi
    requires forall j :: q < j < |u| ==> u[j] != '/'
    ensures LastSlashThenId(u, lo, hi) == LastSlashThenId(u, lo, q)
    decreases hi
  {
    if hi > q {
      SlashSkipsBack(u, lo, hi - 1, q);
    }
  }

  /** `[^\/]+` after `i` ends at the first '/', `n` characters on. */
  lemma FirstSlashAt(u: string, i: nat, n: nat)
    requires i + n < |u|
    requires forall j :: i <= j < i + n ==> u[j] != '/'
    requires u[i + n] == '/'
    ensures IndexOf(u[i..], '/') == Some(n)
  {
    var s := u[i..];
    assert s == s[..n] + ['/'] + s[n + 1..];
    assert '/' !in s[..n] by {
      forall j | 0 <= j < n ensures s[..n][j] != '/' {
        assert s[..n][j] == u[i + j];
      }
    }
    IndexOfAfter(s[..n], '/', s[n + 1..]);
  }

  /** The greedy `.+\/` from `start` runs on to the last '/', at `q`, and the id after it is captured. */
  lemma LastSlashAt(u: string, start: nat, q: nat, id: string)
    requires start < q < |u| && u[q] == '/'
    requires forall j :: start <= j < q ==> !IsLineTerminator(u[j])
    requires HasAt(u, q + 1, id) && IsVideoId(id)
    requires forall j :: q < j < |u| ==> u[j] != '/'
    ensures SlashTail(u, start) == Some(id)
  {
    RunEndReaches(u, start, q);
    SlashSkipsBack(u, start, RunEnd(u, start), q);
    assert IdAt(u, q + 1) == Some(id);
  }

  /** `[^\/]+` after `i` ending at the first '/', `n` characters on, leaves `.+\/` to start after it. */
  lemma PathFormUnfold(u: string, i: nat, n: nat)
    requires i <= |u| && n > 0 && IndexOf(u[i..], '/') == Some(n)
    ensures i + n + 1 <= |u|
    ensures PathForm(u, i) == SlashTail(u, i + n + 1)
  {
  }

  /**
   * The first alternative after `youtube.com/` at `i`: `[^\/]+` takes the `n`
   * characters up to the first '/', and the greedy `.+\/` goes on from there.
   */
  lemma PathFormAt(u: string, i: nat, n: nat, id: string)
    requires i <= |u| && n > 0 && IndexOf(u[i..], '/') == Some(n)
    requires i + n + 1 <= |u| && SlashTail(u, i + n + 1) == Some(id)
    ensures PathForm(u, i) == Some(id)
  {
    PathFormUnfold(u, i, n);
  }

  /** `youtube.com/` at `p` and the first alternative matching after it: the regex matches at `p`. */
  lemma PathMatchAt(u: string, p: nat, id: string)
    requires HasAt(u, p, "youtube.com/") && PathForm(u, p + 12) == Some(id)
    ensures MatchAt(u, p) == Some(id)
  {
  }

  /**
   * After `youtube.com/` at `i`: a first segment of `n` characters without
   * '/', a '/', a stretch without line terminators up to the last '/' at `q`,
   * then an id. The first alternative matches and captures that id.
   */
  lemma PathFormLayout(u: string, i: nat, n: nat, q: nat, id: string)
    requires n > 0 && i + n + 1 < q < |u|
    requires forall j :: i <= j < i + n ==> u[j] != '/'
    requires u[i + n] == '/' && u[q] == '/'
    requires forall j :: i + n + 1 <= j < q ==> !IsLineTerminator(u[j])
    requires HasAt(u, q + 1, id) && IsVideoId(id)
    requires forall j :: q < j < |u| ==> u[j] != '/'
    ensures PathForm(u, i) == Some(id)
  {
    FirstSlashAt(u, i, n);
    LastSlashAt(u, i + n + 1, q, id);
    PathFormAt(u, i, n, id);
  }

  /** The leftmost host prefix at `p`, followed by a path URL's layout: the regex yields the id. */
  lemma PathUrlMatches(u: string, p: nat, n: nat, q: nat, id: string)
    requires forall k: nat :: k < p ==> !HostAt(u, k)
    requires HasAt(u, p, "youtube.com/")
    requires n > 0 && p + 12 + n + 1 < q < |u|
    requires forall j :: p + 12 <= j < p + 12 + n ==> u[j] != '/'
    requires u[p + 12 + n] == '/' && u[q] == '/'
    requires forall j :: p + 12 + n + 1 <= j < q ==> !IsLineTerminator(u[j])
    requires HasAt(u, q + 1, id) && IsVideoId(id)
    requires forall j :: q < j < |u| ==> u[j] != '/'
    ensures ExtractVideoId(u) == Some(id)
  {
    PathFormLayout(u, p + 12, n, q, id);
    PathMatchAt(u, p, id);
    FirstMatchAt(u, p, id);
  }

  /** Where the parts of `a + "/" + m + "/" + id + rest` sit. */
  lemma SlashLayout(a: string, m: string, id: string, rest: string)
    ensures var u := a + "/" + m + "/" + id + rest;
            && |u| == |a| + |m| + |id| + |rest| + 2
            && u[..|a|] == a
            && u[|a|] == '/'
            && (forall j :: 0 <= j < |m| ==> u[|a| + 1 + j] == m[j])
            && u[|a| + 1 + |m|] == '/'
            && HasAt(u, |a| + |m| + 2, id)
            && (forall j :: 0 <= j < |rest| ==> u[|a| + |m| + 2 + |id| + j] == rest[j])
  {
    var u := a + "/" + m + "/" + id + rest;
    assert u == a + ("/" + (m + ("/" + (id + rest))));
    assert u[|a| + |m| + 2..][..|id|] == id;
  }

  /** Where the host and the first path segment sit in `pre + host + seg`. */
  lemma HostLayout(pre: string, host: string, seg: string)
    ensures var a := pre + host + seg;
            && a[..|pre|] == pre
            && HasAt(a, |pre|, host)
            && (forall j :: 0 <= j < |seg| ==> a[|pre| + |host| + j] == seg[j])
  {
    var a := pre + host + seg;
    assert a[|pre|..][..|host|] == host;
  }

  /** In a path URL, `pre` comes first and `youtube.com/` right after it. */
  lemma PathUrlHost(pre: string, seg: string, mid: string, id: string, rest: string)
    ensures var a := pre + "youtube.com/" + seg;
            var u := a + "/" + mid + "/" + id + rest;
            u[..|pre|] == pre && HasAt(u, |pre|, "youtube.com/")
  {
    var host := "youtube.com/";
    var a := pre + host + seg;
    var u := a + "/" + mid + "/" + id + rest;
    var p := |pre|;
    SlashLayout(a, mid, id, rest);
    HostLayout(pre, host, seg);
    assert u[p..p + 12] == u[..|a|][p..p + 12];
    assert u[..p] == u[..|a|][..p];
  }

  /** In a path URL, the first segment holds no '/' and a '/' ends it. */
  lemma PathUrlSegment(pre: string, seg: string, mid: string, id: string, rest: string)
    requires '/' !in seg
    ensures var a := pre + "youtube.com/" + seg;
            var u := a + "/" + mid + "/" + id + rest;
            var i := |pre| + 12;
            && |a| == i + |seg| && |a| < |u| && u[|a|] == '/'
            && (forall j :: i <= j < |a| ==> u[j] != '/')
  {
    var host := "youtube.com/";
    var a := pre + host + seg;
    var u := a + "/" + mid + "/" + id + rest;
    var i := |pre| + 12;
    SlashLayout(a, mid, id, rest);
    HostLayout(pre, host, seg);
    forall j | i <= j < |a| ensures u[j] != '/' {
      assert u[j] == u[..|a|][j] == a[|pre| + |host| + (j - i)];
    }
  }

  /** After `a + "/"`: the middle part without line terminators, then the last '/'. */
  lemma PathUrlMiddle(a: string, mid: string, id: string, rest: string)
    requires forall j :: 0 <= j < |mid| ==> !IsLineTerminator(mid[j])
    ensures var u := a + "/" + mid + "/" + id + rest;
            var q := |a| + 1 + |mid|;
            && q < |u| && u[q] == '/'
            && (forall j :: |a| + 1 <= j < q ==> !IsLineTerminator(u[j]))
  {
    var u := a + "/" + mid + "/" + id + rest;
    var q := |a| + 1 + |mid|;
    SlashLayout(a, mid, id, rest);
    forall j | |a| + 1 <= j < q ensures !IsLineTerminator(u[j]) {
      assert u[|a| + 1 + (j - |a| - 1)] == mid[j - |a| - 1];
    }
  }

  /** After the last '/' of a path URL: the id, then a tail without '/'. */
  lemma PathUrlId(a: string, mid: string, id: string, rest: string)
    requires IsVideoId(id) && '/' !in rest
    ensures var u := a + "/" + mid + "/" + id + rest;
            var q := |a| + 1 + |mid|;
            && HasAt(u, q + 1, id)
            && (forall j :: q < j < |u| ==> u[j] != '/')
  {
    var u := a + "/" + mid + "/" + id + rest;
    var q := |a| + 1 + |mid|;
    SlashLayout(a, mid, id, rest);
    CharsAt(u, q + 1, id);
    forall j | q < j < |u| ensures u[j] != '/' {
      if j < q + 1 + IdLength {
        assert u[q + 1 + (j - q - 1)] == id[j - q - 1];
      } else {
        assert u[|a| + |mid| + 2 + |id| + (j - q - 1 - IdLength)] == rest[j - q - 1 - IdLength];
      }
    }
  }

  /**
   * A path URL `youtube.com/<seg>/<mid>/<id>` yields the eleven characters
   * after the last '/': the first alternative of the regex is tried first,
   * and its greedy `.+` runs on to the last '/'.
   */
  lemma PathLinkId(pre: string, seg: string, mid: string, id: string, rest: string)
    requires 'y' !in pre
    requires |seg| > 0 && '/' !in seg
    requires |mid| > 0 && forall j :: 0 <= j < |mid| ==> !IsLineTerminator(mid[j])
    requires IsVideoId(id)
    requires '/' !in rest
    ensures ExtractVideoId(pre + "youtube.com/" + seg + "/" + mid + "/" + id + rest) == Some(id)
  {
    var a := pre + "youtube.com/" + seg;
    var u := a + "/" + mid + "/" + id + rest;
    var p, i, q := |pre|, |pre| + 12, |a| + 1 + |mid|;
    PathUrlHost(pre, seg, mid, id, rest);
    PathUrlSegment(pre, seg, mid, id, rest);
    PathUrlMiddle(a, mid, id, rest);
    PathUrlId(a, mid, id, rest);
    assert u == pre + u[p..];
    NoHostInPrefix(pre, u[p..]);
    PathUrlMatches(u, p, |seg|, q, id);
  }

  /** A URL holding neither host prefix yields no id. */
  lemma NoHostNoId(url: string)
    requires forall q: nat :: !HostAt(url, q)
    ensures ExtractVideoId(url).None?
  {
  }
}
