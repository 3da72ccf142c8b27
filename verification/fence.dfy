/** The markdown fence removal of parsers/llm_parser.py:50-56. A reply
    that starts with three backticks is searched for
    ```` ```(?:json)?\s*\n(.*?)\n``` ```` with `re.DOTALL`; when that
    matches, the reply is replaced by the group, otherwise it is kept.
    The search is written out as the backtracking Python's `re` engine
    performs, with the scans of `Patterns`. */
module Fence {
  import opened Wrappers
  import opened Text
  import opened Patterns

  /** The opening fence, which is also what `startswith` checks. */
  const Ticks := "```"

  /** `\n```` : the closing fence. */
  const Closing := "\n```"

  /** The closing fence starts at `k`. */
  function CloseAt(s: string, k: nat): Option<nat> {
    if LabelAt(s, k, Closing) then Some(k) else None
  }

  function Closes(s: string): nat -> Option<nat> {
    (k: nat) => CloseAt(s, k)
  }

  /** `\n(.*?)\n```` at `j`: a line break, then the shortest body up to
      a closing fence. `.` matches line breaks under `re.DOTALL`. */
  function BodyFrom(s: string, j: nat): (r: Option<Group>)
    ensures r.Some? ==> r.value.start <= r.value.end <= |s|
  {
    if j < |s| && BreakAt(s, j) then
      match FirstSome(Closes(s), j + 1, |s|)
      case None => None
      case Some((k, _)) => Some(Group(j + 1, k))
    else
      None
  }

  function Bodies(s: string): nat -> Option<Group> {
    (j: nat) => BodyFrom(s, j)
  }

  /** `\s*\n(.*?)\n```` at `p`: the greedy `\s*` takes the whole run of
      white space and gives it back one character at a time. */
  function AfterTag(s: string, p: nat): (r: Option<Group>)
    requires p <= |s|
    ensures r.Some? ==> r.value.start <= r.value.end <= |s|
  {
    match LastSome(Bodies(s), p, SkipSpaces(s, p))
    case None => None
    case Some((_, g)) => Some(g)
  }

  /** The whole pattern at `i`; the optional `json` is tried first. */
  function FenceAt(s: string, i: nat): (r: Option<Group>)
    ensures r.Some? ==> r.value.start <= r.value.end <= |s|
  {
    if !LabelAt(s, i, Ticks) then None
    else
      var tagged := if LabelAt(s, i + 3, "json") then AfterTag(s, i + 7) else None;
      if tagged.Some? then tagged else AfterTag(s, i + 3)
  }

  function Fences(s: string): nat -> Option<Group> {
    (i: nat) => FenceAt(s, i)
  }

  /** `re.search`: the leftmost start where the pattern matches. */
  function FenceSearch(s: string): (r: Option<Group>)
    ensures r.Some? ==> r.value.start <= r.value.end <= |s|
  {
    match FirstSome(Fences(s), 0, |s|)
    case None => None
    case Some((_, g)) => Some(g)
  }

  /** Lines 53-56: a reply that does not open with a fence, or in which
      the pattern finds nothing, comes back unchanged; otherwise the
      body of the leftmost fence is all that is kept. */
  function StripFences(reply: string): (r: string)
    ensures !LabelAt(reply, 0, Ticks) ==> r == reply
    ensures |r| <= |reply|
  {
    if LabelAt(reply, 0, Ticks) then
      match FenceSearch(reply)
      case None => reply
      case Some(g) => reply[g.start..g.end]
    else
      reply
  }

  /** No closing fence anywhere in `s`. */
  ghost predicate NoClosing(s: string) {
    forall k: nat :: !LabelAt(s, k, Closing)
  }

  /** Every match ends at a closing fence. */
  lemma BodyNeedsClosing(s: string, j: nat)
    requires BodyFrom(s, j).Some?
    ensures LabelAt(s, BodyFrom(s, j).value.end, Closing)
  {
    var r := FirstSome(Closes(s), j + 1, |s|);
    assert Closes(s)(r.value.0).Some?;
  }

  lemma AfterTagNeedsClosing(s: string, p: nat)
    requires p <= |s| && AfterTag(s, p).Some?
    ensures !NoClosing(s)
  {
    var r := LastSome(Bodies(s), p, SkipSpaces(s, p));
    assert Bodies(s)(r.value.0).Some?;
    BodyNeedsClosing(s, r.value.0);
  }

  lemma FenceNeedsClosing(s: string, i: nat)
    requires FenceAt(s, i).Some?
    ensures !NoClosing(s)
  {
    if LabelAt(s, i + 3, "json") && AfterTag(s, i + 7).Some? {
      AfterTagNeedsClosing(s, i + 7);
    } else {
      AfterTagNeedsClosing(s, i + 3);
    }
  }

  /** A reply with no closing fence is kept as it is, even when it opens
      with one: the `if match` of line 55 fails. */
  lemma NoClosingUnchanged(reply: string)
    requires NoClosing(reply)
    ensures StripFences(reply) == reply
  {
    var r := FirstSome(Fences(reply), 0, |reply|);
    if r.Some? {
      assert Fences(reply)(r.value.0).Some?;
      FenceNeedsClosing(reply, r.value.0);
    }
  }

  /** A closing fence that starts before the break at `e` lies wholly
      before it: its last three characters are backticks. */
  lemma ClosingBeforeBreak(r: string, j: nat, e: nat)
    requires j < e < |r| && BreakAt(r, e) && LabelAt(r, j, Closing)
    ensures j + 4 <= e
  {
    forall m | j < m < j + 4 ensures !BreakAt(r, m) {
      assert r[m] == r[j..j + 4][m - j];
    }
  }

  /** After a line break, white space holding no further break, and a
      character that is not white space, `\s*` can only give back to the
      break, and the body runs to the first closing fence. */
  lemma AfterTagAt(r: string, p: nat, q: nat, e: nat)
    requires p < q < |r| && BreakAt(r, p) && !SpaceAt(r, q)
    requires SpacesIn(r, p + 1, q) && NoBreakIn(r, p + 1, q)
    requires p + 1 <= e && LabelAt(r, e, Closing)
    requires forall j | p + 1 <= j < e :: !LabelAt(r, j, Closing)
    ensures AfterTag(r, p) == Some(Group(p + 1, e))
  {
    SkipSpacesStops(r, p, q);
    forall j | p < j <= q ensures Bodies(r)(j).None? {
      assert !BreakAt(r, j);
    }
    forall j | p + 1 <= j < e ensures Closes(r)(j).None? {
      assert !LabelAt(r, j, Closing);
    }
    assert Closes(r)(e).Some?;
    FirstSomeAt(Closes(r), p + 1, |r|, e);
    assert Bodies(r)(p) == Some(Group(p + 1, e));
  }

  /** `body` holds a character other than white space, and no line
      break comes before the first such character. */
  predicate OpensOnLine(body: string) {
    SkipSpaces(body, 0) < |body| && NoBreakIn(body, 0, SkipSpaces(body, 0))
  }

  /** In a fenced reply the first closing fence after the opening line
      is the one that follows the body. */
  lemma FirstClosing(tag: string, body: string, rest: string)
    requires forall k: nat :: !LabelAt(body, k, Closing)
    ensures var r := Ticks + tag + "\n" + body + Closing + rest;
      var p := 3 + |tag|;
      var e := p + 1 + |body|;
      && e < |r| && BreakAt(r, p) && LabelAt(r, e, Closing)
      && forall j | p + 1 <= j < e :: !LabelAt(r, j, Closing)
  {
    var r := Ticks + tag + "\n" + body + Closing + rest;
    var p := 3 + |tag|;
    var e := p + 1 + |body|;
    assert r[p] == '\n' && r[e] == '\n';
    assert r[e..e + 4] == Closing;
    forall j | p + 1 <= j < e ensures !LabelAt(r, j, Closing) {
      if LabelAt(r, j, Closing) {
        ClosingBeforeBreak(r, j, e);
        assert r[j..j + 4] == body[j - p - 1..j - p + 3];
        assert LabelAt(body, j - p - 1, Closing);
      }
    }
  }

  /** A match at the very start of a reply that opens with a fence is
      the one `re.search` returns. */
  lemma FenceAtStart(r: string, p: nat, g: Group)
    requires LabelAt(r, 0, Ticks) && p <= |r| && AfterTag(r, p) == Some(g)
    requires (p == 7 && LabelAt(r, 3, "json")) || (p == 3 && !LabelAt(r, 3, "json"))
    ensures StripFences(r) == r[g.start..g.end]
  {
    assert Fences(r)(0) == Some(g);
    FirstSomeAt(Fences(r), 0, |r|, 0);
  }

  /** In a fenced reply `\s*` after the opening line gives back to the
      break, and the body runs to the closing fence after it. */
  lemma FencedAfterTag(tag: string, body: string, rest: string)
    requires OpensOnLine(body)
    requires forall k: nat :: !LabelAt(body, k, Closing)
    ensures var r := Ticks + tag + "\n" + body + Closing + rest;
      3 + |tag| <= |r| && AfterTag(r, 3 + |tag|) == Some(Group(4 + |tag|, 4 + |tag| + |body|))
  {
    var r := Ticks + tag + "\n" + body + Closing + rest;
    var p := 3 + |tag|;
    var q := p + 1 + SkipSpaces(body, 0);
    FirstClosing(tag, body, rest);
    FencedSlice(tag, body, rest);
    forall m | p + 1 <= m <= q ensures r[m] == body[m - p - 1] {
      assert r[m] == r[p + 1..p + 1 + |body|][m - p - 1];
    }
    assert !SpaceAt(body, q - p - 1);
    forall m | p + 1 <= m < q ensures SpaceAt(r, m) && !BreakAt(r, m) {
      assert SpaceAt(body, m - p - 1) && !BreakAt(body, m - p - 1);
    }
    AfterTagAt(r, p, q, p + 1 + |body|);
  }

  /** The opening line of a fenced reply, with or without `json`. */
  lemma FencedOpening(tag: string, body: string, rest: string)
    requires tag == "" || tag == "json"
    ensures var r := Ticks + tag + "\n" + body + Closing + rest;
      && LabelAt(r, 0, Ticks)
      && ((tag == "json" && LabelAt(r, 3, "json")) || (tag == "" && !LabelAt(r, 3, "json")))
  {
    var r := Ticks + tag + "\n" + body + Closing + rest;
    assert r[..3] == Ticks;
    if tag == "" {
      assert r[3] == '\n';
    } else {
      assert r[3..7] == "json";
    }
  }

  /** The body of a fenced reply, cut back out of it. */
  lemma FencedSlice(tag: string, body: string, rest: string)
    ensures var r := Ticks + tag + "\n" + body + Closing + rest;
      4 + |tag| + |body| <= |r| && r[4 + |tag|..4 + |tag| + |body|] == body
  {
    var r := Ticks + tag + "\n" + body + Closing + rest;
    var a := Ticks + tag + "\n";
    assert r == a + body + (Closing + rest);
    assert (a + body + (Closing + rest))[|a|..|a| + |body|] == body;
  }

  /** A blank line between the opening line and the body is dropped: the
      greedy `\s*` takes both line breaks and gives back only the last,
      which `\n` then matches. */
  lemma FencedBlankLine()
    ensures StripFences("```\n\n{}\n```") == "{}"
  {
    var r := "```\n\n{}\n```";
    assert r[..3] == Ticks;
    assert r[3..7][0] == r[3] == '\n';
    assert SpaceAt(r, 3) && SpaceAt(r, 4) && !SpaceAt(r, 5);
    SkipSpacesStops(r, 3, 5);
    assert r[7..11] == Closing;
    assert r[5..9][0] == r[5] && r[6..10][0] == r[6];
    AfterTagAt(r, 4, 5, 7);
    assert Bodies(r)(5).None?;
    FenceAtStart(r, 3, Group(5, 7));
    assert r[5..7] == "{}";
  }

  /** A reply that is exactly a fence — three backticks, an optional
      `json`, a line break, a body, a line break and three backticks,
      then anything — comes back as the body, provided the body holds
      something other than white space, with no line break before it,
      and no closing fence of its own: `\s*` gives back to the opening
      break, so leading spaces and tabs stay in the body, and the lazy
      `(.*?)` stops at the first closing fence, so whatever follows it is
      dropped. A body after blank lines is `FencedBlankLine`'s case. */
  lemma FencedBody(tag: string, body: string, rest: string)
    requires tag == "" || tag == "json"
    requires OpensOnLine(body)
    requires forall k: nat :: !LabelAt(body, k, Closing)
    ensures StripFences(Ticks + tag + "\n" + body + Closing + rest) == body
  {
    var r := Ticks + tag + "\n" + body + Closing + rest;
    FencedAfterTag(tag, body, rest);
    FencedOpening(tag, body, rest);
    FenceAtStart(r, 3 + |tag|, Group(4 + |tag|, 4 + |tag| + |body|));
    FencedSlice(tag, body, rest);
  }
}
