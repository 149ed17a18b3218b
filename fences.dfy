/**
 * The clean-up that `call_llm` (app.py) applies to the planner's reply before
 * returning it: the reply is whitespace-stripped and, only if it then starts
 * with three backticks, every leading and trailing backtick is removed, every
 * occurrence of "json" is deleted and the rest is whitespace-stripped again.
 */
module Fences {
  import opened PyStr

  /** The Markdown code-fence opener the reply is tested for. */
  const Fence: string := "```"

  /** The language tag that is deleted, wherever it occurs. */
  const Tag: string := "json"

  /** The fence normalisation of the assistant's content. */
  function NormalizeFences(content: string): (r: string)
    ensures NoEdge(r, IsSpace)
    ensures |r| <= |content|
  {
    var t := Strip(content, IsSpace);
    if StartsWith(t, Fence) then
      Strip(ReplaceAll(Strip(t, IsBacktick), Tag, ""), IsSpace)
    else
      t
  }

  /** The normalisation only deletes characters: the result never holds a
      character more often than the content did. */
  lemma NormalizeOnlyDeletes(content: string)
    ensures multiset(NormalizeFences(content)) <= multiset(content)
  {
    var t := Strip(content, IsSpace);
    StripMultiset(content, IsSpace);
    if StartsWith(t, Fence) {
      var u := Strip(t, IsBacktick);
      StripMultiset(t, IsBacktick);
      ReplaceMultiset(u, Tag);
      StripMultiset(ReplaceAll(u, Tag, ""), IsSpace);
    }
  }

  /** Content that does not start with a fence once stripped comes back
      stripped and otherwise unchanged. */
  lemma UnfencedIsStripped(content: string)
    requires !StartsWith(Strip(content, IsSpace), Fence)
    ensures NormalizeFences(content) == Strip(content, IsSpace)
  {
  }

  /** Content without surrounding whitespace and without a fence passes
      through unchanged. */
  lemma UnfencedPassThrough(content: string)
    requires NoEdge(content, IsSpace) && !StartsWith(content, Fence)
    ensures NormalizeFences(content) == content
  {
    StripNoOp(content, IsSpace);
  }

  /** Stripped content that starts with a fence is the fenced branch. */
  lemma FencedBranch(content: string)
    requires NoEdge(content, IsSpace) && StartsWith(content, Fence)
    ensures NormalizeFences(content)
         == Strip(ReplaceAll(Strip(content, IsBacktick), Tag, ""), IsSpace)
  {
    StripNoOp(content, IsSpace);
  }

  /** A body between an opening run of at least three backticks and a closing
      run of at least one loses both runs whatever their lengths, then every
      "json" in it, then its surrounding whitespace. */
  lemma FencedBody(open: string, body: string, close: string)
    requires |open| >= 3 && AllDrop(open, IsBacktick)
    requires close != [] && AllDrop(close, IsBacktick)
    requires NoEdge(body, IsBacktick)
    ensures NormalizeFences(open + body + close) == Strip(ReplaceAll(body, Tag, ""), IsSpace)
  {
    var s := open + body + close;
    assert s[0] == open[0] && s[|s| - 1] == close[|close| - 1];
    assert s[..3] == open[..3] == Fence;
    assert s[..|open|] == open;
    assert s[|open|..|open| + |body|] == body;
    assert s[|open| + |body|..] == close;
    StripIs(s, body, IsBacktick, |open|);
    FencedBranch(s);
  }

  /** The same for the plain three-backtick fence on both sides. */
  lemma ThreeBacktickFence(body: string)
    requires NoEdge(body, IsBacktick)
    ensures NormalizeFences(Fence + body + Fence) == Strip(ReplaceAll(body, Tag, ""), IsSpace)
  {
    assert AllDrop(Fence, IsBacktick);
    FencedBody(Fence, body, Fence);
  }

  /** A fenced body with nothing to delete comes out exactly. */
  lemma FencedPayload(open: string, body: string, close: string)
    requires |open| >= 3 && AllDrop(open, IsBacktick)
    requires close != [] && AllDrop(close, IsBacktick)
    requires NoEdge(body, IsBacktick) && NoEdge(body, IsSpace) && !Contains(body, Tag)
    ensures NormalizeFences(open + body + close) == body
  {
    FencedBody(open, body, close);
    ReplaceAbsent(body, Tag, "");
    StripNoOp(body, IsSpace);
  }

  /** All the backticks go, not just three: "`````x`````" becomes "x". */
  lemma LongFencesStripped()
    ensures NormalizeFences("`````x`````") == "x"
  {
    assert "`````x`````" == "`````" + "x" + "`````";
    AbsentHeadNotContained("x", Tag);
    FencedPayload("`````", "x", "`````");
  }

  /** A pattern bracketed by two characters that cannot begin or end it occurs
      in the bracketed text only where it occurs in the text itself. */
  lemma FramedNotContained(c: char, p: string, d: char, pat: string)
    requires pat != [] && c != pat[0] && d != pat[|pat| - 1]
    requires !Contains(p, pat)
    ensures !Contains([c] + p + [d], pat)
  {
    var s := [c] + p + [d];
    forall i | 0 <= i <= |s|
      ensures !(pat <= s[i..])
    {
      if i == 0 {
        assert s[0] == c;
      } else if i + |pat| < |s| {
        assert s[i..i + |pat|] == p[i - 1..i - 1 + |pat|];
        assert !(pat <= p[i - 1..]);
      } else if i + |pat| == |s| {
        assert s[i..][|pat| - 1] == d;
      }
    }
  }

  /** A reply in the `json`-tagged fence the prompt invites comes out as the
      payload, provided the payload itself contains no "json". */
  lemma TaggedFencePayload(p: string)
    requires NoEdge(p, IsSpace) && !Contains(p, Tag)
    ensures NormalizeFences("```json\n" + p + "\n```") == p
  {
    var inner := ['\n'] + p + ['\n'];
    var body := Tag + inner;
    assert "```json\n" + p + "\n```" == Fence + body + Fence by {
      assert "```json\n" == Fence + Tag + "\n";
      assert "\n```" == "\n" + Fence;
    }
    assert Strip(ReplaceAll(body, Tag, ""), IsSpace) == p by {
      assert body[..|Tag|] == Tag && body[|Tag|..] == inner;
      assert ReplaceAll(body, Tag, "") == ReplaceAll(inner, Tag, "");
      FramedNotContained('\n', p, '\n', Tag);
      ReplaceAbsent(inner, Tag, "");
      assert inner[..1] == "\n" && inner[1..1 + |p|] == p && inner[1 + |p|..] == "\n";
      StripIs(inner, p, IsSpace, 1);
    }
    ThreeBacktickFence(body);
  }

  /** The tagged-fence reply "```json\n{\"a\":1}\n```" normalises to
      {"a":1}. */
  lemma TaggedFenceExample()
    ensures NormalizeFences("```json\n{\"a\":1}\n```") == "{\"a\":1}"
  {
    var p := "{\"a\":1}";
    assert "```json\n" + p + "\n```" == "```json\n{\"a\":1}\n```";
    assert 'j' !in p;
    AbsentHeadNotContained(p, Tag);
    TaggedFencePayload(p);
  }

  /** The deletion of "json" is not confined to the language tag: a "json"
      inside the payload is deleted too. */
  lemma PayloadTagDeleted(head: string, rest: string)
    requires Tag[0] !in head && Tag[0] !in rest
    requires NoEdge(head + Tag + rest, IsBacktick) && NoEdge(head + rest, IsSpace)
    ensures NormalizeFences(Fence + (head + Tag + rest) + Fence) == head + rest
  {
    var body := head + Tag + rest;
    assert ReplaceAll(body, Tag, "") == head + rest by {
      assert body == head + (Tag + rest);
      ReplaceSkipsPrefix(head, Tag + rest, Tag, "");
      assert (Tag + rest)[..|Tag|] == Tag && (Tag + rest)[|Tag|..] == rest;
      assert ReplaceAll(Tag + rest, Tag, "") == ReplaceAll(rest, Tag, "");
      AbsentHeadNotContained(rest, Tag);
      ReplaceAbsent(rest, Tag, "");
    }
    StripNoOp(head + rest, IsSpace);
    ThreeBacktickFence(body);
  }

  /** So a fenced {"json":1} becomes {"":1}. */
  lemma PayloadTagExample(reply: string)
    requires reply == "```{\"json\":1}```"
    ensures NormalizeFences(reply) == "{\"\":1}"
  {
    var head, rest := "{\"", "\":1}";
    assert reply == Fence + (head + Tag + rest) + Fence;
    assert head + rest == "{\"\":1}";
    PayloadTagDeleted(head, rest);
  }

  /** A short fence around "x" comes off: "```x```" becomes "x". */
  lemma ShortFenceStripped(reply: string)
    requires reply == "```x```"
    ensures NormalizeFences(reply) == "x"
  {
    var x := "x";
    assert reply == Fence + x + Fence;
    AbsentHeadNotContained(x, Tag);
    FencedPayload(Fence, x, Fence);
  }

  /** Two "json" tags around a fenced payload go in one pass. */
  lemma {:induction false} TagsAroundDeleted(inner: string)
    requires Tag[0] !in inner
    ensures ReplaceAll(Tag + inner + Tag, Tag, "") == inner
  {
    var body := Tag + inner + Tag;
    assert body[..|Tag|] == Tag && body[|Tag|..] == inner + Tag;
    ReplaceSkipsPrefix(inner, Tag, Tag, "");
    assert Tag[..|Tag|] == Tag && Tag[|Tag|..] == [];
    assert inner + [] == inner;
  }

  /** One pass over a reply fenced twice, the inner fence tagged "json" on
      both sides, deletes the tags and the outer fence but not the inner one. */
  lemma DoubleFenceOnePass(x: string)
    requires Tag[0] !in x
    ensures NormalizeFences(Fence + (Tag + (Fence + x + Fence) + Tag) + Fence) == Fence + x + Fence
  {
    var inner := Fence + x + Fence;
    assert Tag[0] !in inner;
    TagsAroundDeleted(inner);
    assert NoEdge(inner, IsSpace) && NoEdge(Tag + inner + Tag, IsBacktick);
    StripNoOp(inner, IsSpace);
    ThreeBacktickFence(Tag + inner + Tag);
  }

  /** The normalisation is therefore not idempotent: the fence left by the
      first pass is removed by a second. */
  lemma NotIdempotent(x: string)
    requires Tag[0] !in x && NoEdge(x, IsBacktick) && NoEdge(x, IsSpace)
    ensures NormalizeFences(Fence + (Tag + (Fence + x + Fence) + Tag) + Fence) == Fence + x + Fence
    ensures NormalizeFences(Fence + x + Fence) == x
  {
    assert NormalizeFences(Fence + x + Fence) == x by {
      AbsentHeadNotContained(x, Tag);
      assert AllDrop(Fence, IsBacktick);
      FencedPayload(Fence, x, Fence);
    }
    DoubleFenceOnePass(x);
  }

  /** For instance "```json```x```json```" becomes "```x```", and that "x". */
  lemma NotIdempotentExample(reply: string)
    requires reply == "```json```x```json```"
    ensures NormalizeFences(reply) == "```x```"
    ensures NormalizeFences(NormalizeFences(reply)) == "x"
  {
    var x := "x";
    assert reply == Fence + (Tag + (Fence + x + Fence) + Tag) + Fence;
    assert Fence + x + Fence == "```x```";
    NotIdempotent(x);
  }
}
