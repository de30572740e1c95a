/** The content of the webhook message, and the outcome of posting it. */
module Notifier {
  import opened Lines

  const Gift: string := "\U{1F381}"
  const Bullet: string := "\U{2022}"
  const Title: string := " **New Gift Codes Found** ("
  const SourcesLead: string := "_Sources checked: "
  const FallbackLabel: string := "mixed sources"
  const Reminder: string := "Redeem ASAP (codes can expire / hit limits)."

  /** The role mention, present only when a role id is configured. */
  function Ping(roleId: string): string
  {
    if roleId != "" then "<@&" + roleId + ">\n" else ""
  }

  function Header(now: string): string
  {
    Gift + Title + now + ")"
  }

  /** One code as an inline code token. */
  function BulletLine(c: string): string
  {
    Bullet + " `" + c + "`"
  }

  function BulletLines(codes: seq<string>): (lines: seq<string>)
    ensures |lines| == |codes|
    ensures forall k :: 0 <= k < |codes| ==> lines[k] == BulletLine(codes[k])
  {
    seq(|codes|, k requires 0 <= k < |codes| => BulletLine(codes[k]))
  }

  /** The contributing sources, or the fallback when none is named. */
  function SourceLabel(sourcesHit: seq<string>): string
  {
    if sourcesHit != [] then Join(sourcesHit, ", ") else FallbackLabel
  }

  function Footer(sourcesHit: seq<string>): string
  {
    SourcesLead + SourceLabel(sourcesHit) + "_"
  }

  /** Everything after the mention. */
  function Body(now: string, codes: seq<string>, sourcesHit: seq<string>): string
  {
    Header(now) + "\n" + Join(BulletLines(codes), "\n") + "\n\n" + Footer(sourcesHit) + "\n" + Reminder
  }

  /** The message the run posts for new codes. */
  function Content(roleId: string, now: string, codes: seq<string>, sourcesHit: seq<string>): (m: string)
    ensures roleId != "" <==> |m| >= 3 && m[..3] == "<@&"
    ensures |m| >= |Reminder| && m[|m| - |Reminder|..] == Reminder
  {
    var rest := "\n" + Join(BulletLines(codes), "\n") + "\n\n" + Footer(sourcesHit) + "\n";
    BodyRegroup(Header(now), Join(BulletLines(codes), "\n"), Footer(sourcesHit), Reminder);
    PingAndBodyEdges(roleId, now, rest, Reminder);
    Ping(roleId) + Body(now, codes, sourcesHit)
  }

  /** Regrouping the body's concatenation, stated over arbitrary strings so
      the verifier does not unfold the message constants. */
  lemma BodyRegroup(h: string, block: string, footer: string, r: string)
    ensures h + "\n" + block + "\n\n" + footer + "\n" + r == (h + ("\n" + block + "\n\n" + footer + "\n")) + r
  {
  }

  /** A message made of the mention and a body that starts with the header. */
  lemma PingAndBodyEdges(roleId: string, now: string, rest: string, r: string)
    ensures var m := Ping(roleId) + ((Header(now) + rest) + r);
      (roleId != "" <==> |m| >= 3 && m[..3] == "<@&") && |m| >= |r| && m[|m| - |r|..] == r
  {
    var lead := Header(now) + rest;
    assert |lead| >= |Header(now)| && lead[..|Header(now)|] == Header(now);
    EndsWith(Ping(roleId), lead, r);
    BodyStartsWithGift(now, lead, r);
    if roleId != "" {
      MentionStartsWith(roleId, lead + r);
    } else {
      assert Ping(roleId) + (lead + r) == lead + r;
    }
  }

  lemma EndsWith(p: string, x: string, r: string)
    ensures |p + (x + r)| >= |r| && (p + (x + r))[|p + (x + r)| - |r|..] == r
  {
    assert p + (x + r) == (p + x) + r;
  }

  lemma MentionStartsWith(roleId: string, x: string)
    requires roleId != ""
    ensures |Ping(roleId) + x| >= 3 && (Ping(roleId) + x)[..3] == "<@&"
  {
    assert Ping(roleId) + x == "<@&" + (roleId + ">\n" + x);
  }

  lemma BodyStartsWithGift(now: string, x: string, r: string)
    requires |x| >= |Header(now)| && x[..|Header(now)|] == Header(now)
    ensures |x + r| >= 3 && (x + r)[0] != '<' && (x + r)[..3] != "<@&"
  {
    assert Header(now)[0] == Gift[0];
    assert (x + r)[..3][0] == Gift[0];
  }

  predicate HasNoNewline(s: string)
  {
    '\n' !in s
  }

  /** One line, then the rest. */
  lemma SplitLead(h: string, x: string)
    requires HasNoNewline(h)
    ensures Split(h + "\n" + x, '\n') == [h] + Split(x, '\n')
  {
    SplitWithoutSeparator(h, '\n');
    SplitAround(h, x, '\n');
  }

  /** The same body grouped the way its lines are read back. */
  lemma Regroup(h: string, block: string, footer: string, r: string)
    ensures h + "\n" + block + "\n\n" + footer + "\n" + r == h + "\n" + (block + "\n" + ("" + "\n" + (footer + "\n" + r)))
  {
    var nl: string := "\n";
    assert "\n\n" == nl + nl;
    calc {
      h + "\n" + block + "\n\n" + footer + "\n" + r;
      ((h + nl + block) + (nl + nl)) + (footer + nl + r);
      (h + nl + block) + (nl + nl + (footer + nl + r));
      (h + nl) + (block + nl + ("" + nl + (footer + nl + r)));
    }
  }

  /** Splitting the body's layout, with its parts left abstract. */
  lemma SplitLayout(h: string, block: string, footer: string, r: string)
    requires HasNoNewline(h) && HasNoNewline(footer) && HasNoNewline(r)
    ensures Split(h + "\n" + block + "\n\n" + footer + "\n" + r, '\n') == [h] + Split(block, '\n') + ["", footer, r]
  {
    Regroup(h, block, footer, r);
    var tail := footer + "\n" + r;
    SplitLead(footer, r);
    SplitWithoutSeparator(r, '\n');
    var mid := "" + "\n" + tail;
    SplitLead("", tail);
    SplitAround(block, mid, '\n');
    SplitLead(h, block + "\n" + mid);
  }

  /** The bullet block reads back as one line per code, in order. */
  lemma BulletBlockLines(codes: seq<string>)
    requires forall k :: 0 <= k < |codes| ==> HasNoNewline(codes[k])
    ensures Split(Join(BulletLines(codes), "\n"), '\n') == if codes == [] then [""] else BulletLines(codes)
  {
    var bullets := BulletLines(codes);
    forall k | 0 <= k < |bullets|
      ensures HasNoNewline(bullets[k])
    {
      assert bullets[k] == Bullet + " `" + codes[k] + "`";
    }
    if codes != [] {
      SplitJoin(bullets, '\n');
    }
  }

  /** Read line by line, the message is the optional mention, the header,
      one bullet line per new code in the given order (a single empty line
      when there are none), an empty line, the sources line and the reminder. */
  lemma ContentLines(roleId: string, now: string, codes: seq<string>, sourcesHit: seq<string>)
    requires HasNoNewline(roleId) && HasNoNewline(now)
    requires forall k :: 0 <= k < |codes| ==> HasNoNewline(codes[k])
    requires forall k :: 0 <= k < |sourcesHit| ==> HasNoNewline(sourcesHit[k])
    ensures Split(Content(roleId, now, codes, sourcesHit), '\n') ==
      (if roleId != "" then ["<@&" + roleId + ">"] else [])
      + [Header(now)]
      + (if codes == [] then [""] else BulletLines(codes))
      + ["", Footer(sourcesHit), Reminder]
  {
    var mention: seq<string> := if roleId != "" then ["<@&" + roleId + ">"] else [];
    var bullets := if codes == [] then [""] else BulletLines(codes);
    var tail := ["", Footer(sourcesHit), Reminder];
    assert Content(roleId, now, codes, sourcesHit) == Ping(roleId) + Body(now, codes, sourcesHit);
    BodyLines(now, codes, sourcesHit);
    SplitPing(roleId, Body(now, codes, sourcesHit));
    Append4(mention, [Header(now)], bullets, tail);
  }

  /** Regrouping four lists of lines, stated over arbitrary lists. */
  lemma Append4(a: seq<string>, b: seq<string>, c: seq<string>, d: seq<string>)
    ensures a + (b + c + d) == a + b + c + d
  {
  }

  lemma SplitPing(roleId: string, body: string)
    requires HasNoNewline(roleId)
    ensures Split(Ping(roleId) + body, '\n') == (if roleId != "" then ["<@&" + roleId + ">"] else []) + Split(body, '\n')
  {
    if roleId != "" {
      var mention := "<@&" + roleId + ">";
      assert HasNoNewline(mention);
      assert Ping(roleId) == mention + "\n";
      SplitLead(mention, body);
    } else {
      assert Ping(roleId) + body == body;
    }
  }

  lemma BodyLines(now: string, codes: seq<string>, sourcesHit: seq<string>)
    requires HasNoNewline(now)
    requires forall k :: 0 <= k < |codes| ==> HasNoNewline(codes[k])
    requires forall k :: 0 <= k < |sourcesHit| ==> HasNoNewline(sourcesHit[k])
    ensures Split(Body(now, codes, sourcesHit), '\n') ==
      [Header(now)] + (if codes == [] then [""] else BulletLines(codes)) + ["", Footer(sourcesHit), Reminder]
  {
    FooterHasNoNewline(sourcesHit);
    HeaderHasNoNewline(now);
    ReminderHasNoNewline();
    BulletBlockLines(codes);
    SplitLayout(Header(now), Join(BulletLines(codes), "\n"), Footer(sourcesHit), Reminder);
  }

  lemma HeaderHasNoNewline(now: string)
    requires HasNoNewline(now)
    ensures HasNoNewline(Header(now))
  {
    TitleHasNoNewline();
  }

  lemma FooterHasNoNewline(sourcesHit: seq<string>)
    requires forall k :: 0 <= k < |sourcesHit| ==> HasNoNewline(sourcesHit[k])
    ensures HasNoNewline(Footer(sourcesHit))
  {
    JoinedHasNoNewline(sourcesHit, ", ");
    LabelsHaveNoNewline();
  }

  /** Each fixed piece of the message fits on one line. */
  lemma TitleHasNoNewline()
    ensures HasNoNewline(Gift) && HasNoNewline(Title)
  {
  }

  lemma LabelsHaveNoNewline()
    ensures HasNoNewline(SourcesLead) && HasNoNewline(FallbackLabel)
  {
  }

  lemma ReminderHasNoNewline()
    ensures HasNoNewline(Reminder)
  {
  }

  lemma {:induction false} JoinedHasNoNewline(xs: seq<string>, sep: string)
    requires HasNoNewline(sep)
    requires forall k :: 0 <= k < |xs| ==> HasNoNewline(xs[k])
    ensures HasNoNewline(Join(xs, sep))
  {
    if |xs| > 1 {
      JoinedHasNoNewline(xs[1..], sep);
    }
  }

  datatype PostError = MissingWebhook | DeliveryFailed

  datatype PostResult = Delivered(content: string) | PostFailed(error: PostError)

  /** `post`: fails before building anything when no webhook is configured;
      otherwise builds the message and sends it, and `delivered` says whether
      the POST went through. */
  function Post(webhook: string, roleId: string, now: string, codes: seq<string>, sourcesHit: seq<string>, delivered: bool): (r: PostResult)
    ensures webhook == "" ==> r == PostFailed(MissingWebhook)
    ensures r.Delivered? <==> webhook != "" && delivered
    ensures r.Delivered? ==> r.content == Content(roleId, now, codes, sourcesHit)
  {
    if webhook == "" then PostFailed(MissingWebhook)
    else if !delivered then PostFailed(DeliveryFailed)
    else Delivered(Content(roleId, now, codes, sourcesHit))
  }
}
