/** The record of API calls that each source keeps: how a call's outcome is classed, and the bound. */
module Capabilities {
  import opened Display
  import opened Health
  import opened Ordering

  const MAX_CAPABILITIES := 512

  /** How a call ended; Refused carries the HTTP status of the answer. */
  datatype Outcome = Answered | Refused(status: int) | Broken

  datatype Call = Call(source: string, host: string, name: string, endpoint: string, outcome: Outcome)

  function StatusOf(o: Outcome): string {
    match o
    case Answered => "ok"
    case Broken => "error"
    case Refused(status) =>
      if status == 403 || status == 401 then "forbidden"
      else if status == 404 then "not_found"
      else if status >= 500 then "not_available"
      else "error"
  }

  const API_PREFIX := "/api2/json/"

  /** The text without any occurrence of the part, from left to right. */
  function Removed(s: string, part: string): string
    requires part != ""
    decreases |s|
  {
    if s == "" then ""
    else if part <= s then Removed(s[|part|..], part)
    else [s[0]] + Removed(s[1..], part)
  }

  function TrimSlashes(s: string): string
    decreases |s|
  {
    if s != "" && s[0] == '/' then TrimSlashes(s[1..])
    else if s != "" && s[|s| - 1] == '/' then TrimSlashes(s[..|s| - 1])
    else s
  }

  /** The endpoint as it appears in a capability's id, which is the key that capabilities merge by. */
  function ShortEndpoint(endpoint: string): string {
    TrimSlashes(Removed(endpoint, API_PREFIX))
  }

  function ItemOf(c: Call): Item {
    Item(c.source + "/" + c.name + "/" + ShortEndpoint(c.endpoint), c.source, c.host, c.name, c.endpoint,
         StatusOf(c.outcome), 0, false, false, OK, 0, 0)
  }

  function Items(calls: seq<Call>): (r: seq<Item>)
    ensures |r| == |calls| && forall i | 0 <= i < |calls| :: r[i] == ItemOf(calls[i])
  {
    seq(|calls|, i requires 0 <= i < |calls| => ItemOf(calls[i]))
  }

  /** How each outcome is classed. */
  lemma StatusMeaning(o: Outcome)
    ensures StatusOf(o) == "ok" <==> o.Answered?
    ensures StatusOf(o) == "forbidden" <==> o == Refused(401) || o == Refused(403)
    ensures StatusOf(o) == "not_found" <==> o == Refused(404)
    ensures StatusOf(o) == "not_available" <==> o.Refused? && o.status >= 500
    ensures StatusOf(o) == "error" <==>
              o.Broken? || (o.Refused? && o.status < 500 && o.status !in {401, 403, 404})
  {
  }

  lemma {:induction false} NothingRemoved(s: string, part: string)
    requires part != "" && forall i | 0 <= i < |s| :: !(part <= s[i..])
    ensures Removed(s, part) == s
  {
    if s != "" {
      assert s[0..] == s;
      forall i | 0 <= i < |s| - 1 ensures !(part <= s[1..][i..]) { assert s[1..][i..] == s[i + 1..]; }
      NothingRemoved(s[1..], part);
    }
  }

  /** What is recorded of a call to the API; in its id the endpoint stands without the API's prefix. */
  lemma CallRecorded(c: Call, path: string)
    requires path != "" && path[0] != '/' && path[|path| - 1] != '/' && c.endpoint == "/api2/json/" + path
    requires forall i | 0 <= i < |path| :: !(API_PREFIX <= path[i..])
    ensures var i := ItemOf(c);
            && i.id == c.source + "/" + c.name + "/" + path && i.source == c.source && i.host == c.host
            && i.name == c.name && i.endpoint == c.endpoint && i.status == StatusOf(c.outcome)
  {
    ShortIsPath(path);
  }

  lemma ShortIsPath(path: string)
    requires path != "" && path[0] != '/' && path[|path| - 1] != '/'
    requires forall i | 0 <= i < |path| :: !(API_PREFIX <= path[i..])
    ensures ShortEndpoint("/api2/json/" + path) == path
  {
    var endpoint := "/api2/json/" + path;
    assert API_PREFIX <= endpoint && endpoint[|API_PREFIX|..] == path;
    NothingRemoved(path, API_PREFIX);
  }

  method AddCapability(recorded: seq<Item>, c: Call) returns (r: seq<Item>)
    ensures r == if |recorded| >= MAX_CAPABILITIES then recorded else recorded + [ItemOf(c)]
  {
    if |recorded| >= MAX_CAPABILITIES {
      return recorded;
    }
    var status := "ok";
    if !c.outcome.Answered? {
      status := "error";
      if c.outcome.Refused? {
        if c.outcome.status == 403 || c.outcome.status == 401 {
          status := "forbidden";
        } else if c.outcome.status == 404 {
          status := "not_found";
        } else if c.outcome.status == 501 || c.outcome.status >= 500 {
          status := "not_available";
        }
      }
    }
    r := recorded + [Item(c.source + "/" + c.name + "/" + ShortEndpoint(c.endpoint), c.source, c.host, c.name,
                          c.endpoint, status, 0, false, false, OK, 0, 0)];
  }

  /** A source records exactly its first 512 calls, in the order in which they were made. */
  method Record(calls: seq<Call>) returns (recorded: seq<Item>)
    ensures recorded == Take(Items(calls), MAX_CAPABILITIES)
  {
    recorded := [];
    for i := 0 to |calls|
      invariant recorded == Take(Items(calls[..i]), MAX_CAPABILITIES)
    {
      assert Items(calls[..i + 1]) == Items(calls[..i]) + [ItemOf(calls[i])];
      recorded := AddCapability(recorded, calls[i]);
    }
    assert calls[..|calls|] == calls;
  }

  /** A call that gets no usable answer outranks every call that does, so it is shown before them. */
  lemma FailuresOutrankAnswers(failed: Call, answered: Call)
    requires !failed.outcome.Answered? && answered.outcome.Answered?
    ensures CapabilityRank(ItemOf(failed).status) > CapabilityRank(ItemOf(answered).status)
    ensures KeyBelow(CapabilityKey(ItemOf(failed)), CapabilityKey(ItemOf(answered)))
  {
    assert CapabilityRank(StatusOf(failed.outcome)) >= 3;
  }
}
