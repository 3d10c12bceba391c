/** `_replace_mention_tags`: the `zsu[@user:<zuid>]zsu` tags of a comment
    are replaced by the mentioned agents' names, one mention at a time, in
    list order. */
module Mentions {
  import opened Results
  import opened Json
  import opened Text

  /** The tag that stands for the user `zuid` in a comment's text. */
  function Tag(zuid: string): (t: string)
    ensures |t| == |zuid| + 14
    ensures t[..10] == "zsu[@user:" && t[10..10 + |zuid|] == zuid && t[10 + |zuid|..] == "]zsu"
  {
    "zsu[@user:" + zuid + "]zsu"
  }

  function DisplayName(first: string, last: string): string
  {
    first + " " + last
  }

  /** `mention["type"]` can be read. */
  predicate Typed(mention: Json)
  {
    mention.JObject? && "type" in mention.fields
  }

  /** A mention of an agent, the only kind that is resolved. */
  predicate IsAgent(mention: Json)
  {
    Typed(mention) && mention.fields["type"] == JStr("AGENT")
  }

  predicate HasString(mention: Json, key: string)
  {
    mention.JObject? && key in mention.fields && mention.fields[key].JStr?
  }

  /** An agent mention whose tag and name can be built. */
  predicate Resolvable(mention: Json)
  {
    IsAgent(mention) && HasString(mention, "zuid") && HasString(mention, "firstName") && HasString(mention, "lastName")
  }

  /** One pass of the loop over the mentions, on the comment text so far.
      A mention that is not an object with a `type` raises; a mention of
      another type changes nothing; an agent mention needs a string
      `zuid`, `firstName` and `lastName` and a string text, and replaces
      every occurrence of its tag by the agent's name. */
  function ApplyMention(text: Json, mention: Json): (r: Result<Json>)
    ensures r.Ok? ==> Typed(mention)
    ensures Typed(mention) && !IsAgent(mention) ==> r == Ok(text)
    ensures IsAgent(mention) ==> (r.Ok? <==> Resolvable(mention) && text.JStr?)
    ensures r.Ok? && IsAgent(mention) ==>
              r.value == JStr(Join(Split(text.s, Tag(mention.fields["zuid"].s)),
                                   DisplayName(mention.fields["firstName"].s, mention.fields["lastName"].s)))
  {
    if !Typed(mention) then Err(BadComment("type"))
    else if !IsAgent(mention) then Ok(text)
    else if !HasString(mention, "zuid") then Err(BadComment("zuid"))
    else if !HasString(mention, "firstName") then Err(BadComment("firstName"))
    else if !HasString(mention, "lastName") then Err(BadComment("lastName"))
    else if !text.JStr? then Err(BadComment("content"))
    else
      var tag := Tag(mention.fields["zuid"].s);
      var name := DisplayName(mention.fields["firstName"].s, mention.fields["lastName"].s);
      ReplaceIsJoinOfSplit(text.s, tag, name);
      Ok(JStr(ReplaceAll(text.s, tag, name)))
  }

  /** The whole loop: the mentions applied in list order, stopping at the
      first that raises. It succeeds only if every mention has a `type`,
      and leaves the text alone when none is an agent. */
  function ApplyMentions(text: Json, mentions: seq<Json>): (r: Result<Json>)
    ensures r.Ok? ==> forall i :: 0 <= i < |mentions| ==> Typed(mentions[i])
    ensures (forall i :: 0 <= i < |mentions| ==> Typed(mentions[i]) && !IsAgent(mentions[i])) ==> r == Ok(text)
    decreases |mentions|
  {
    if |mentions| == 0 then Ok(text)
    else
      match ApplyMention(text, mentions[0])
      case Err(e) => Err(e)
      case Ok(next) =>
        ApplyMentions(next, mentions[1..])
  }

  /** What `for mention in mentions` visits: a list's elements; an empty
      string or object visits nothing; a non-empty string or object visits
      strings, whose `["type"]` raises; a number or boolean is not
      iterable. */
  function Visited(mentions: Json): (r: Result<seq<Json>>)
    ensures r.Ok? <==> mentions.JArray? || mentions == JStr("") || mentions == JObject(map[])
    ensures mentions.JArray? ==> r == Ok(mentions.items)
    ensures r.Ok? && !mentions.JArray? ==> r.value == []
  {
    match mentions
    case JArray(items) => Ok(items)
    case JStr(s) => if s == "" then Ok([]) else Err(BadComment("mention"))
    case JObject(fields) => if fields == map[] then Ok([]) else Err(BadComment("mention"))
    case _ => Err(BadComment("mention"))
  }

  /** `_replace_mention_tags(content)`: `content` must be an object with a
      `content` key; without mentions (absent or null) the text comes back
      as it is, otherwise with every agent mention's tag resolved. */
  function ReplaceMentionTags(content: Json): (r: Result<Json>)
    ensures r.Ok? ==> content.JObject? && "content" in content.fields
    ensures content.JObject? && "content" in content.fields && GetOrNull(content, "mention") == JNull ==>
              r == Ok(content.fields["content"])
    ensures content.JObject? && "content" in content.fields && GetOrNull(content, "mention").JArray? ==>
              r == ApplyMentions(content.fields["content"], GetOrNull(content, "mention").items)
  {
    if !content.JObject? then Err(BadComment("content"))
    else
      var mention := GetOrNull(content, "mention");
      if mention == JNull then
        if "content" in content.fields then Ok(content.fields["content"]) else Err(BadComment("content"))
      else
        match Visited(mention)
        case Err(e) => Err(e)
        case Ok(mentions) =>
          if "content" !in content.fields then Err(BadComment("content"))
          else ApplyMentions(content.fields["content"], mentions)
  }

  /** The mentions that are agents, in order. */
  function Agents(mentions: seq<Json>): (r: seq<Json>)
    ensures |r| <= |mentions|
    ensures forall i :: 0 <= i < |r| ==> IsAgent(r[i])
    decreases |mentions|
  {
    if |mentions| == 0 then []
    else if IsAgent(mentions[0]) then [mentions[0]] + Agents(mentions[1..])
    else Agents(mentions[1..])
  }

  /** When every mention has a `type`, only the agent mentions matter:
      dropping the others changes nothing. */
  lemma {:induction false} OnlyAgentsMatter(text: Json, mentions: seq<Json>)
    requires forall i :: 0 <= i < |mentions| ==> Typed(mentions[i])
    ensures ApplyMentions(text, mentions) == ApplyMentions(text, Agents(mentions))
    decreases |mentions|
  {
    if |mentions| > 0 {
      var m := mentions[0];
      var tail := mentions[1..];
      assert forall i :: 0 <= i < |tail| ==> Typed(tail[i]) by {
        forall i | 0 <= i < |tail| ensures Typed(tail[i]) {
          assert tail[i] == mentions[i + 1];
        }
      }
      if IsAgent(m) {
        match ApplyMention(text, m)
        case Err(_) =>
        case Ok(next) =>
          OnlyAgentsMatter(next, tail);
          assert ([m] + Agents(tail))[1..] == Agents(tail);
      } else {
        OnlyAgentsMatter(text, tail);
      }
    }
  }

  /** The loop over `a + b` is the loop over `a`, then the loop over `b`
      from where it left the text. */
  lemma {:induction false} ApplyMentionsSplits(text: Json, a: seq<Json>, b: seq<Json>)
    ensures ApplyMentions(text, a + b) ==
            match ApplyMentions(text, a)
            case Err(e) => Err(e)
            case Ok(mid) => ApplyMentions(mid, b)
    decreases |a|
  {
    if |a| == 0 {
      assert a + b == b;
    } else {
      assert (a + b)[0] == a[0];
      assert (a + b)[1..] == a[1..] + b;
      match ApplyMention(text, a[0])
      case Err(_) =>
      case Ok(next) => ApplyMentionsSplits(next, a[1..], b);
    }
  }

  /** An agent mention whose tag does not occur in the text leaves it as it is. */
  lemma AbsentTagLeavesText(text: string, mention: Json)
    requires Resolvable(mention)
    requires !Contains(text, Tag(mention.fields["zuid"].s))
    ensures ApplyMention(JStr(text), mention) == Ok(JStr(text))
  {
    ReplaceAbsent(text, Tag(mention.fields["zuid"].s),
                  DisplayName(mention.fields["firstName"].s, mention.fields["lastName"].s));
  }

  /** An agent's tag in a comment is replaced by the agent's name. */
  lemma ResolvesOneTag()
    ensures var mention := JObject(map["type" := JStr("AGENT"), "zuid" := JStr("7"),
                                       "firstName" := JStr("Ada"), "lastName" := JStr("L")]);
            ReplaceMentionTags(JObject(map["content" := JStr("zsu[@user:7]zsu hi"),
                                           "mention" := JArray([mention])]))
            == Ok(JStr("Ada L hi"))
  {
    var tag := Tag("7");
    var s := "zsu[@user:7]zsu hi";
    assert s[..|tag|] == tag;
    assert s[|tag|..] == " hi";
    assert ReplaceAll(s, tag, "Ada L") == "Ada L" + ReplaceAll(" hi", tag, "Ada L");
    assert ReplaceAll(s, tag, "Ada L") == "Ada L hi";
    var mention := JObject(map["type" := JStr("AGENT"), "zuid" := JStr("7"),
                               "firstName" := JStr("Ada"), "lastName" := JStr("L")]);
    assert Resolvable(mention);
    assert mention.fields["zuid"].s == "7";
    assert DisplayName(mention.fields["firstName"].s, mention.fields["lastName"].s) == "Ada L";
    assert ApplyMention(JStr(s), mention) == Ok(JStr("Ada L hi"));
    assert [mention][1..] == [];
    assert ApplyMentions(JStr(s), [mention]) == ApplyMentions(JStr("Ada L hi"), []);
  }
}
