/**
 * Cleanup of a model response before it is parsed as JSON (`clean_text_json`):
 * Python's `text.strip("` \n")` followed by dropping a leading `json` tag.
 */
module Cleanup {

  /** The characters `strip("` \n")` removes: backtick, space and newline. */
  predicate Junk(c: char) {
    c == '`' || c == ' ' || c == '\n'
  }

  /** Every character of `s` at an index in `[lo, hi)` is junk. */
  predicate JunkBetween(s: string, lo: int, hi: int)
    requires 0 <= lo && hi <= |s|
  {
    forall k :: lo <= k < hi ==> Junk(s[k])
  }

  predicate AllJunk(s: string) {
    JunkBetween(s, 0, |s|)
  }

  const Tag: string := "json"

  predicate StartsWithTag(s: string) {
    |s| >= |Tag| && s[..|Tag|] == Tag
  }

  /** The left scan of `strip`: the first index from `i` on that holds a
      character to keep, or `|s|` when there is none. */
  function FirstKept(s: string, i: nat): (k: nat)
    requires i <= |s|
    ensures i <= k <= |s|
    ensures JunkBetween(s, i, k)
    ensures k < |s| ==> !Junk(s[k])
    decreases |s| - i
  {
    if i < |s| && Junk(s[i]) then FirstKept(s, i + 1) else i
  }

  /** The right scan of `strip`: the end of the last character to keep in
      `s[lo..j]`, or `lo` when there is none. */
  function LastKept(s: string, lo: nat, j: nat): (k: nat)
    requires lo <= j <= |s|
    ensures lo <= k <= j
    ensures JunkBetween(s, k, j)
    ensures lo < k ==> !Junk(s[k - 1])
    decreases j
  {
    if lo < j && Junk(s[j - 1]) then LastKept(s, lo, j - 1) else j
  }

  /** Where the text `strip` keeps starts and ends. */
  function StripStart(s: string): nat
  {
    FirstKept(s, 0)
  }

  function StripEnd(s: string): (e: nat)
    ensures StripStart(s) <= e <= |s|
  {
    LastKept(s, StripStart(s), |s|)
  }

  /** `strip`: junk removed from both ends, and nothing else: `s` is the junk
      before, the result, and the junk after. */
  function Strip(s: string): (r: string)
    ensures r == s[StripStart(s)..StripEnd(s)]
    ensures JunkBetween(s, 0, StripStart(s)) && JunkBetween(s, StripEnd(s), |s|)
    ensures r != [] ==> !Junk(r[0]) && !Junk(r[|r| - 1])
  {
    s[StripStart(s)..StripEnd(s)]
  }

  /** `clean_text_json`. */
  function CleanTextJson(text: string): (r: string)
    ensures Strip(text) == (if StartsWithTag(Strip(text)) then Tag else "") + r
    ensures r != [] ==> !Junk(r[|r| - 1])
  {
    var t := Strip(text);
    if StartsWithTag(t) then DropTag(t) else assert "" + t == t; t
  }

  /** `t` without its leading tag. */
  function DropTag(t: string): (r: string)
    requires StartsWithTag(t)
    ensures t == Tag + r
    ensures r != [] ==> r[|r| - 1] == t[|t| - 1]
  {
    var r := t[|Tag|..];
    assert t == t[..|Tag|] + r;
    r
  }

  /** The left scan stops at the first character to keep. */
  lemma {:induction false} FirstKeptAt(s: string, i: nat, k: nat)
    requires i <= k <= |s| && JunkBetween(s, i, k)
    requires k < |s| ==> !Junk(s[k])
    ensures FirstKept(s, i) == k
    decreases k - i
  {
    if i < k {
      FirstKeptAt(s, i + 1, k);
    }
  }

  /** The right scan stops after the last character to keep. */
  lemma {:induction false} LastKeptAt(s: string, lo: nat, j: nat, k: nat)
    requires lo <= k <= j <= |s| && JunkBetween(s, k, j)
    requires lo < k ==> !Junk(s[k - 1])
    ensures LastKept(s, lo, j) == k
    decreases j - k
  {
    if k < j {
      LastKeptAt(s, lo, j - 1, k);
    }
  }

  /** The stripped text is determined by where its first and last non-junk
      characters are: any split of `s` into junk, a core without junk at its
      ends, and junk, gives that core. */
  lemma StripUnique(s: string, i: nat, j: nat)
    requires i <= j <= |s|
    requires JunkBetween(s, 0, i) && JunkBetween(s, j, |s|)
    requires i < j ==> !Junk(s[i]) && !Junk(s[j - 1])
    ensures Strip(s) == s[i..j]
  {
    if i == j {
      FirstKeptAt(s, 0, |s|);
      LastKeptAt(s, |s|, |s|, |s|);
    } else {
      FirstKeptAt(s, 0, i);
      LastKeptAt(s, i, |s|, j);
    }
  }

  /** Stripping twice changes nothing more. */
  lemma StripIdempotent(s: string)
    ensures Strip(Strip(s)) == Strip(s)
  {
    var r := Strip(s);
    StripUnique(r, 0, |r|);
    assert r[0..|r|] == r;
  }

  /** A response made of junk, a core that neither starts nor ends with junk,
      and junk, cleans to that core, without its tag when it starts with one. */
  lemma CleanTextJsonOf(pre: string, core: string, post: string)
    requires AllJunk(pre) && AllJunk(post)
    requires core != [] ==> !Junk(core[0]) && !Junk(core[|core| - 1])
    ensures CleanTextJson(pre + core + post) == if StartsWithTag(core) then core[|Tag|..] else core
  {
    var s := pre + core + post;
    var i, j := |pre|, |pre| + |core|;
    assert forall k :: 0 <= k < i ==> s[k] == pre[k];
    assert forall k :: j <= k < |s| ==> s[k] == post[k - j];
    assert s[i..j] == core;
    StripUnique(s, i, j);
  }

  /** A fenced response loses its fences and its tag; the newline after the
      tag stays (JSON parsing tolerates it). */
  lemma CleanFencedResponse()
    ensures CleanTextJson("```" + "json\n{}" + "\n```") == "\n{}"
  {
    var pre, core, post := "```", "json\n{}", "\n```";
    assert AllJunk(pre) by {
      assert pre[0] == '`' && pre[1] == '`' && pre[2] == '`';
    }
    assert AllJunk(post) by {
      assert post[0] == '\n' && post[1] == '`' && post[2] == '`' && post[3] == '`';
    }
    assert core[0] == 'j' && core[|core| - 1] == '}';
    assert StartsWithTag(core) && core[|Tag|..] == "\n{}";
    CleanTextJsonOf(pre, core, post);
  }
}
