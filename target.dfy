/**
 Target identity: channels and queries (one-to-one conversations) as
 immutable values whose identity is their case-folded `normalized` name.
 `raw` is kept for display only, and a channel's status `prefixes` record
 how it was addressed, never which channel it is.
 The shared, reference-counted (`Arc`) payloads become plain values.
 */
module Targets {

  import opened Wrappers
  import opened Strings
  import opened Proto

  /**
   The server's CASEMAPPING rule. Which rule is active is never inspected:
   the only thing done with it is folding a string to its comparison form.
   */
  datatype CaseMap = CaseMap(fold: string -> string) {
    /** `CaseMap::normalize`: total and deterministic. */
    function Normalize(s: string): string {
      fold(s)
    }
  }

  /** A nickname as the user model hands it over: display form and its already-normalised form. */
  datatype Nick = Nick(raw: string, normalized: string)

  /** Errors of the fallible parsers; each carries the text that was rejected. */
  datatype ParseError = InvalidChannel(target: string) | InvalidQuery(target: string) {
    /** The error's display text: a fixed phrase per kind, ending with the rejected text. */
    function Message(): (m: string)
      ensures |target| < |m| && m[|m| - |target|..] == target
    {
      match this
      case InvalidChannel(t) => "unable to parse channel from " + t
      case InvalidQuery(t) => "unable to parse query from " + t
    }
  }

  /** A channel: the status prefixes it was addressed with, its folded name, and the original text. */
  datatype Channel = Channel(prefixes: seq<char>, normalized: string, raw: string) {

    /** `PartialEq`: same folded name, so equal channels always hash alike, and only they do. */
    predicate Eq(other: Channel)
      ensures Eq(other) <==> HashKey() == other.HashKey()
    {
      normalized == other.normalized
    }

    /** `Ord`: lexicographic on the folded name; `Equal` exactly for equal channels. */
    function Cmp(other: Channel): (r: Ordering)
      ensures r == Equal <==> Eq(other)
    {
      Strings.Cmp(normalized, other.normalized)
    }

    /** `Hash`: the only thing fed to the hasher. */
    function HashKey(): string {
      normalized
    }

    /** `Display`: the original text. */
    function ToString(): string {
      raw
    }

    /** The channel wrapped as a target. */
    function ToTarget(): (t: Target)
      ensures t.AsChannel() == Some(this) && t.AsQuery() == None
      ensures t.AsNormalizedStr() == normalized && t.AsStr() == raw
    {
      ChannelTarget(this)
    }

    /** `normalized` is the fold of `raw` with the leading `prefixes` removed. */
    predicate Consistent(casemap: CaseMap) {
      |prefixes| <= |raw| && raw[..|prefixes|] == prefixes
      && normalized == casemap.Normalize(raw[|prefixes|..])
    }
  }

  /** A query: its folded name and the original text. */
  datatype Query = Query(normalized: string, raw: string) {

    /** `PartialEq`: same folded name, so equal queries always hash alike, and only they do. */
    predicate Eq(other: Query)
      ensures Eq(other) <==> HashKey() == other.HashKey()
    {
      normalized == other.normalized
    }

    /** `Ord`: lexicographic on the folded name; `Equal` exactly for equal queries. */
    function Cmp(other: Query): (r: Ordering)
      ensures r == Equal <==> Eq(other)
    {
      Strings.Cmp(normalized, other.normalized)
    }

    /** `Hash`: the only thing fed to the hasher. */
    function HashKey(): string {
      normalized
    }

    /** `Display`: the original text. */
    function ToString(): string {
      raw
    }

    /** The query wrapped as a target. */
    function ToTarget(): (t: Target)
      ensures t.AsQuery() == Some(this) && t.AsChannel() == None
      ensures t.AsNormalizedStr() == normalized && t.AsStr() == raw
    {
      QueryTarget(this)
    }
  }

  /** Anything a message can be addressed to. */
  datatype Target = ChannelTarget(channel: Channel) | QueryTarget(query: Query) {

    /** `as_channel` / `to_channel`. */
    function AsChannel(): (r: Option<Channel>)
      ensures r.Some? <==> ChannelTarget?
      ensures r.Some? ==> ChannelTarget(r.value) == this
    {
      match this
      case ChannelTarget(c) => Some(c)
      case QueryTarget(_) => None
    }

    /** `as_query` / `to_query`. */
    function AsQuery(): (r: Option<Query>)
      ensures r.Some? <==> QueryTarget?
      ensures r.Some? ==> QueryTarget(r.value) == this
    {
      match this
      case ChannelTarget(_) => None
      case QueryTarget(q) => Some(q)
    }

    /** `as_normalized_str`: the folded name of either variant. */
    function AsNormalizedStr(): (s: string)
      ensures AsChannel().Some? ==> s == AsChannel().value.normalized
      ensures AsQuery().Some? ==> s == AsQuery().value.normalized
    {
      match this
      case ChannelTarget(c) => c.normalized
      case QueryTarget(q) => q.normalized
    }

    /** `as_str`: the original text of either variant. */
    function AsStr(): (s: string)
      ensures AsChannel().Some? ==> s == AsChannel().value.raw
      ensures AsQuery().Some? ==> s == AsQuery().value.raw
    {
      match this
      case ChannelTarget(c) => c.raw
      case QueryTarget(q) => q.raw
    }

    /** `PartialEq`: same variant and equal payloads; a channel never equals a query. */
    predicate Eq(other: Target)
      ensures Eq(other) <==> ChannelTarget? == other.ChannelTarget? && AsNormalizedStr() == other.AsNormalizedStr()
    {
      match (this, other)
      case (ChannelTarget(c), ChannelTarget(d)) => c.Eq(d)
      case (QueryTarget(q), QueryTarget(p)) => q.Eq(p)
      case _ => false
    }

    /**
     `Ord`: every channel before every query, each variant ordered by the
     folded names; `Equal` exactly when `eq` holds.
     */
    function Cmp(other: Target): (r: Ordering)
      ensures r == Equal <==> Eq(other)
      ensures ChannelTarget? && other.QueryTarget? ==> r == Less
      ensures QueryTarget? && other.ChannelTarget? ==> r == Greater
      ensures ChannelTarget? == other.ChannelTarget? ==> r == Strings.Cmp(AsNormalizedStr(), other.AsNormalizedStr())
    {
      match (this, other)
      case (ChannelTarget(c), ChannelTarget(d)) => c.Cmp(d)
      case (ChannelTarget(_), QueryTarget(_)) => Less
      case (QueryTarget(q), QueryTarget(p)) => q.Cmp(p)
      case (QueryTarget(_), ChannelTarget(_)) => Greater
    }

    /** `Hash`: delegates to the payload, so the key is the folded name, whatever the variant. */
    function HashKey(): (k: string)
      ensures k == AsNormalizedStr()
    {
      match this
      case ChannelTarget(c) => c.HashKey()
      case QueryTarget(q) => q.HashKey()
    }

    /** `Display`: the original text of either variant. */
    function ToString(): (s: string)
      ensures s == AsStr()
    {
      match this
      case ChannelTarget(c) => c.ToString()
      case QueryTarget(q) => q.ToString()
    }
  }

  /**
   `Target::parse`: never fails. A channel when the protocol helper finds a
   channel in `target`, a query otherwise; either way `raw` is `target`.
   */
  function ParseTarget(target: string, chantypes: seq<char>, statusmsg: seq<char>,
                       casemap: CaseMap, split: ChannelSplit): (t: Target)
    ensures t.ChannelTarget? <==> split(target, chantypes, statusmsg).Some?
    ensures t.AsStr() == target
    ensures t.ChannelTarget? ==> var (prefixes, name) := split(target, chantypes, statusmsg).value;
      t.channel.prefixes == prefixes && t.channel.normalized == casemap.Normalize(name)
    ensures t.QueryTarget? ==> t.query.normalized == casemap.Normalize(target)
  {
    match split(target, chantypes, statusmsg)
    case Some((prefixes, name)) =>
      ChannelTarget(Channel(prefixes, casemap.Normalize(name), target))
    case None =>
      QueryTarget(Query(casemap.Normalize(target), target))
  }

  /**
   `Channel::from_str`: split at the first CHANTYPES character found anywhere
   in `target`; what precedes it are the prefixes, and the rest, starting
   with that character, is the name. With no such character, no prefixes
   and the whole text is the name.
   */
  function ChannelFromStr(target: string, chantypes: seq<char>, casemap: CaseMap): (c: Channel)
    ensures c.raw == target && c.Consistent(casemap)
    ensures !ContainsAny(c.prefixes, chantypes)
    ensures ContainsAny(target, chantypes) ==>
      |c.prefixes| < |target| && target[|c.prefixes|] in chantypes
    ensures !ContainsAny(target, chantypes) ==>
      c.prefixes == [] && c.normalized == casemap.Normalize(target)
  {
    match FindAny(target, chantypes)
    case Some(i) =>
      Channel(target[..i], casemap.Normalize(target[i..]), target)
    case None =>
      Channel([], casemap.Normalize(target), target)
  }

  /** `Channel::parse`: a channel when the protocol helper finds one, `InvalidChannel(target)` otherwise. */
  function ParseChannel(target: string, chantypes: seq<char>, statusmsg: seq<char>,
                        casemap: CaseMap, split: ChannelSplit): (r: Result<Channel, ParseError>)
    ensures r.Ok? <==> split(target, chantypes, statusmsg).Some?
    ensures r.Ok? ==> var (prefixes, name) := split(target, chantypes, statusmsg).value;
      r.value == Channel(prefixes, casemap.Normalize(name), target)
    ensures r.Err? ==> r.error == InvalidChannel(target)
  {
    match split(target, chantypes, statusmsg)
    case Some((prefixes, name)) => Ok(Channel(prefixes, casemap.Normalize(name), target))
    case None => Err(InvalidChannel(target))
  }

  /** `Query::parse`: `InvalidQuery(target)` when the protocol helper finds a channel, a query otherwise. */
  function ParseQuery(target: string, chantypes: seq<char>, statusmsg: seq<char>,
                      casemap: CaseMap, split: ChannelSplit): (r: Result<Query, ParseError>)
    ensures r.Ok? <==> split(target, chantypes, statusmsg).None?
    ensures r.Ok? ==> r.value.raw == target && r.value.normalized == casemap.Normalize(target)
    ensures r.Err? ==> r.error == InvalidQuery(target)
  {
    match split(target, chantypes, statusmsg)
    case Some(_) => Err(InvalidQuery(target))
    case None => Ok(Query(casemap.Normalize(target), target))
  }

  /** `From<Nick>` / `From<NickRef>`: both forms taken over as they are, without folding again. */
  function QueryFromNick(nick: Nick): (q: Query)
    ensures q.ToString() == nick.raw && q.HashKey() == nick.normalized
  {
    Query(nick.normalized, nick.raw)
  }

  /**
   `join_targets`: "", "a", "a and b", and for three or more
   "a, b, ..., and z" (a serial comma before the final "and").
   */
  function JoinTargets(targets: seq<string>): (r: string)
    ensures targets != [] ==> targets[0] <= r
    ensures targets != [] ==> var last := targets[|targets| - 1];
      |last| <= |r| && r[|r| - |last|..] == last
  {
    if targets == [] then ""
    else if |targets| == 1 then targets[0]
    else if |targets| == 2 then targets[0] + " and " + targets[1]
    else targets[0] + ", " + Join(", ", targets[1..|targets| - 1]) + ", and " + targets[|targets| - 1]
  }

  // ---------------------------------------------------------------------
  // Laws of the parsers

  /** The two fallible parsers are complements: exactly one of them succeeds, and each error names the input. */
  lemma ParseChannelQueryComplement(target: string, chantypes: seq<char>, statusmsg: seq<char>,
                                    casemap: CaseMap, split: ChannelSplit)
    ensures ParseChannel(target, chantypes, statusmsg, casemap, split).Ok?
        <==> ParseQuery(target, chantypes, statusmsg, casemap, split).Err?
    ensures ParseChannel(target, chantypes, statusmsg, casemap, split).Err?
        ==> ParseChannel(target, chantypes, statusmsg, casemap, split).error == InvalidChannel(target)
    ensures ParseQuery(target, chantypes, statusmsg, casemap, split).Err?
        ==> ParseQuery(target, chantypes, statusmsg, casemap, split).error == InvalidQuery(target)
  {
  }

  /** Whichever fallible parser succeeds builds exactly the payload `ParseTarget` wraps. */
  lemma ParseAgreesWithParseTarget(target: string, chantypes: seq<char>, statusmsg: seq<char>,
                                   casemap: CaseMap, split: ChannelSplit)
    ensures ParseChannel(target, chantypes, statusmsg, casemap, split).Ok? ==>
      ParseTarget(target, chantypes, statusmsg, casemap, split)
        == ChannelTarget(ParseChannel(target, chantypes, statusmsg, casemap, split).value)
    ensures ParseQuery(target, chantypes, statusmsg, casemap, split).Ok? ==>
      ParseTarget(target, chantypes, statusmsg, casemap, split)
        == QueryTarget(ParseQuery(target, chantypes, statusmsg, casemap, split).value)
  {
  }

  /**
   Under the ISUPPORT convention a parsed channel keeps its invariant:
   `raw` is the prefixes followed by the name, and `normalized` folds the name.
   */
  lemma ParseTargetConsistent(target: string, chantypes: seq<char>, statusmsg: seq<char>, casemap: CaseMap)
    ensures var t := ParseTarget(target, chantypes, statusmsg, casemap, StatusMsgSplit);
      t.ChannelTarget? ==> t.channel.Consistent(casemap)
  {
  }

  /**
   `Channel::from_str` and `Channel::parse` under the ISUPPORT convention:
   `parse` succeeds exactly when `from_str` finds a CHANTYPES character and
   every prefix it collects is a STATUSMSG character, and then both build the
   same channel. Otherwise only `from_str` yields a channel.
   */
  lemma ChannelFromStrAgreesWithParse(target: string, chantypes: seq<char>, statusmsg: seq<char>, casemap: CaseMap)
    ensures var c := ChannelFromStr(target, chantypes, casemap);
      var r := ParseChannel(target, chantypes, statusmsg, casemap, StatusMsgSplit);
      (r.Ok? <==> ContainsAny(target, chantypes) && AllIn(c.prefixes, statusmsg))
      && (r.Ok? ==> r.value == c)
  {
  }

  /** Displaying anything a parser built gives back the text it was parsed from. */
  lemma DisplayRoundTrip(target: string, chantypes: seq<char>, statusmsg: seq<char>,
                         casemap: CaseMap, split: ChannelSplit)
    ensures ParseTarget(target, chantypes, statusmsg, casemap, split).ToString() == target
    ensures ChannelFromStr(target, chantypes, casemap).ToString() == target
    ensures ParseChannel(target, chantypes, statusmsg, casemap, split).Ok? ==>
      ParseChannel(target, chantypes, statusmsg, casemap, split).value.ToString() == target
    ensures ParseQuery(target, chantypes, statusmsg, casemap, split).Ok? ==>
      ParseQuery(target, chantypes, statusmsg, casemap, split).value.ToString() == target
  {
  }

  /**
   An error's text tells the error apart: the kind from the fixed phrase,
   the rejected text from the tail.
   */
  lemma MessageIdentifiesError(e: ParseError, f: ParseError)
    ensures e.Message() == f.Message() <==> e == f
  {
    if e.Message() == f.Message() {
      var m := e.Message();
      assert m[16] == (if e.InvalidChannel? then 'c' else 'q');
      assert f.Message()[16] == (if f.InvalidChannel? then 'c' else 'q');
      assert e.InvalidChannel? == f.InvalidChannel?;
      assert |e.target| == |f.target|;
    }
  }

  // ---------------------------------------------------------------------
  // Laws of identity: equality, ordering and hashing

  /** Two channels differing only in display text and status prefixes are the same channel. */
  lemma ChannelIdentityIgnoresDisplay(c: Channel, prefixes: seq<char>, raw: string)
    ensures var d := Channel(prefixes, c.normalized, raw);
      c.Eq(d) && c.Cmp(d) == Equal && c.HashKey() == d.HashKey()
      && ChannelTarget(c).Eq(ChannelTarget(d))
  {
  }

  /** Two queries differing only in display text are the same query. */
  lemma QueryIdentityIgnoresDisplay(q: Query, raw: string)
    ensures var p := Query(q.normalized, raw);
      q.Eq(p) && q.Cmp(p) == Equal && q.HashKey() == p.HashKey()
      && QueryTarget(q).Eq(QueryTarget(p))
  {
  }

  /** Equal targets have the same variant and feed the hasher the same key. */
  lemma EqImpliesSameHash(t: Target, u: Target)
    requires t.Eq(u)
    ensures t.ChannelTarget? == u.ChannelTarget?
    ensures t.HashKey() == u.HashKey()
  {
  }

  /** `eq` is an equivalence relation. */
  lemma EqIsEquivalence(t: Target, u: Target, v: Target)
    ensures t.Eq(t)
    ensures t.Eq(u) ==> u.Eq(t)
    ensures t.Eq(u) && u.Eq(v) ==> t.Eq(v)
  {
  }

  /**
   Addressing a channel with a status prefix names the same channel:
   "@#chan" and "#chan" parse to equal channels with different prefixes.
   */
  lemma StatusPrefixedChannelIsSameChannel(casemap: CaseMap)
    ensures var c := ParseChannel("@#chan", ['#'], ['@'], casemap, StatusMsgSplit);
      var d := ParseChannel("#chan", ['#'], ['@'], casemap, StatusMsgSplit);
      c.Ok? && d.Ok? && c.value.Eq(d.value)
      && c.value.prefixes == ['@'] && d.value.prefixes == []
  {
    assert StatusMsgSplit("@#chan", ['#'], ['@']) == Some((['@'], "#chan")) by {
      assert FindAny("@#chan", ['#']) == Some(1) by {
        assert "@#chan"[1..] == "#chan";
      }
      assert "@#chan"[..1] == ['@'] && "@#chan"[1..] == "#chan";
    }
    assert StatusMsgSplit("#chan", ['#'], ['@']) == Some(([], "#chan")) by {
      assert FindAny("#chan", ['#']) == Some(0);
      assert "#chan"[..0] == [] && "#chan"[0..] == "#chan";
    }
  }

  /** Swapping the operands of `cmp` reverses the answer. */
  lemma {:induction false} TargetCmpAntisymmetric(t: Target, u: Target)
    ensures u.Cmp(t) == t.Cmp(u).Reverse()
  {
    CmpAntisymmetric(t.AsNormalizedStr(), u.AsNormalizedStr());
  }

  /** `Less` is transitive on targets. */
  lemma {:induction false} TargetCmpTransitive(t: Target, u: Target, v: Target)
    requires t.Cmp(u) == Less && u.Cmp(v) == Less
    ensures t.Cmp(v) == Less
  {
    if t.ChannelTarget? == u.ChannelTarget? && u.ChannelTarget? == v.ChannelTarget? {
      CmpTransitive(t.AsNormalizedStr(), u.AsNormalizedStr(), v.AsNormalizedStr());
    }
  }

  /** Queries built from nicknames are equal exactly when the nicknames' normalised forms are. */
  lemma QueryFromNickIdentity(n: Nick, m: Nick)
    ensures QueryFromNick(n).Eq(QueryFromNick(m)) <==> n.normalized == m.normalized
  {
  }

  // ---------------------------------------------------------------------
  // Laws of join_targets

  /**
   A left-to-right reading of the serial-comma list: each of the first
   items followed by ", ", the last three as "x, y, and z".
   */
  function SerialList(items: seq<string>): string {
    if items == [] then ""
    else if |items| == 1 then items[0]
    else if |items| == 2 then items[0] + " and " + items[1]
    else if |items| == 3 then items[0] + ", " + items[1] + ", and " + items[2]
    else items[0] + ", " + SerialList(items[1..])
  }

  /** `join_targets` produces the serial-comma list. */
  lemma {:induction false} JoinTargetsIsSerialList(targets: seq<string>)
    ensures JoinTargets(targets) == SerialList(targets)
  {
    var n := |targets|;
    if n >= 4 {
      JoinTargetsIsSerialList(targets[1..]);
      assert targets[1..][1..|targets[1..]| - 1] == targets[2..n - 1];
      assert targets[1..n - 1][1..] == targets[2..n - 1];
    }
  }

  /** With three or more items, all but the last are comma-joined and ", and " precedes the last. */
  lemma {:induction false} JoinTargetsSerialComma(targets: seq<string>)
    requires |targets| >= 3
    ensures JoinTargets(targets)
      == Join(", ", targets[..|targets| - 1]) + ", and " + targets[|targets| - 1]
  {
    var n := |targets|;
    assert targets[..n - 1][1..] == targets[1..n - 1];
  }

  /** The outputs for zero to three names. */
  lemma JoinTargetsExamples(a: string, b: string, c: string)
    ensures JoinTargets([]) == ""
    ensures JoinTargets([a]) == a
    ensures JoinTargets([a, b]) == a + " and " + b
    ensures JoinTargets([a, b, c]) == a + ", " + b + ", and " + c
  {
  }
}
