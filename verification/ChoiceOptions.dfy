/**
 * Collecting all options of a choice set page by page (frontend/src/api/choiceSets.ts).
 *
 * The network is a script of rounds: what each request met, in order. `FetchAll` is the client;
 * it returns the requests it sent, so that a script can be compared with what an honest server
 * (backend/app/features/choice_sets) answers to those requests. Cursors are opaque values `C`.
 */
module ChoiceOptions {
  import opened Results
  import opened Ordering
  import opened Paging

  const MAX_VERSION_RESTARTS := 2
  const OPTION_PAGE_LIMIT := 500

  datatype Item = Item(code: string, labelText: string, sortOrder: int, isActive: bool)

  datatype Page<C> = Page(setCode: string, version: int, items: seq<Item>, nextCursor: Option<C>)

  /** `Changed`: the choice_set_changed error with a usable version; `NotAPage`: a body of another shape. */
  datatype Reply<C> = Answer(page: Page<C>) | Changed(actual: nat) | Failed | NotAPage

  datatype Round<C> = Round(abortedBefore: bool, reply: Reply<C>, abortedAfter: bool)

  datatype Request<C> = Request(version: Option<int>, cursor: Option<C>)

  datatype FetchError = Aborted | RequestFailed | Malformed

  datatype Outcome = Done(setCode: string, version: int, items: seq<Item>) | Thrown(error: FetchError) | Waiting

  predicate WellFormed<C>(page: Page<C>, setCode: string) { page.setCode == setCode && page.version >= 1 }

  function CursorAfter<C>(reply: Reply<C>): Option<C> { if reply.Answer? then reply.page.nextCursor else None }

  /** The request a reply leads to, if the exchange goes on. */
  function NextRequest<C>(sent: Request<C>, reply: Reply<C>): Option<Request<C>> {
    match reply
    case Changed(actual) => Some(Request(Some(actual), None))
    case Answer(page) =>
      if sent.cursor.None? && sent.version.Some? && page.version != sent.version.value
        then Some(Request(Some(page.version), None))
      else if page.nextCursor.Some? then Some(Request(Some(page.version), page.nextCursor))
      else None
    case _ => None
  }

  /** The requests of a run: the first one, then each follows from its predecessor's reply. */
  ghost predicate Requested<C(!new)>(requests: seq<Request<C>>, script: seq<Round<C>>, knownVersion: Option<int>) {
    && |requests| <= |script|
    && (|requests| > 0 ==> requests[0] == Request(knownVersion, None))
    && forall i :: 0 < i < |requests| ==> NextRequest(requests[i - 1], script[i - 1].reply) == Some(requests[i])
  }

  /** Requests without a cursor start an attempt. */
  function Attempts<C>(requests: seq<Request<C>>): nat {
    if |requests| == 0 then 0
    else Attempts(requests[..|requests| - 1]) + (if requests[|requests| - 1].cursor.None? then 1 else 0)
  }

  /** Round `i` answered its request with a page of the attempt that began with round `from`. */
  ghost predicate PageRound<C(!new)>(requests: seq<Request<C>>, script: seq<Round<C>>, from: nat, i: nat,
      setCode: string, version: int)
    requires from <= i < |requests| <= |script|
  {
    && script[i].reply.Answer? && !script[i].abortedBefore && !script[i].abortedAfter
    && WellFormed(script[i].reply.page, setCode) && script[i].reply.page.version == version
    && (requests[i].cursor.None? <==> i == from)
    && (requests[i].version.Some? ==> requests[i].version.value == version)
    && (i > from ==>
      script[i - 1].reply.Answer? && requests[i] == Request(Some(version), script[i - 1].reply.page.nextCursor))
  }

  /** The rounds from `from` up to `end` are pages of one attempt at one version, each linked by its cursor. */
  ghost predicate PagesOfOneAttempt<C(!new)>(requests: seq<Request<C>>, script: seq<Round<C>>, from: nat, end: nat,
      setCode: string, version: int)
    requires from <= end <= |requests| <= |script|
  {
    forall i: nat :: from <= i < end ==> PageRound(requests, script, from, i, setCode, version)
  }

  lemma {:induction false} PagesExtend<C(!new)>(requests: seq<Request<C>>, r: Request<C>, script: seq<Round<C>>,
      from: nat, setCode: string, version: int)
    requires from <= |requests| < |script|
    requires PagesOfOneAttempt(requests, script, from, |requests|, setCode, version)
    requires PageRound(requests + [r], script, from, |requests|, setCode, version)
    ensures PagesOfOneAttempt(requests + [r], script, from, |requests| + 1, setCode, version)
  {
    var longer := requests + [r];
    forall i: nat | from <= i < |longer| ensures PageRound(longer, script, from, i, setCode, version) {
      if i < |requests| {
        assert PageRound(requests, script, from, i, setCode, version);
        assert longer[i] == requests[i];
      }
    }
  }

  function ItemsOf<C>(rounds: seq<Round<C>>): seq<Item> {
    if |rounds| == 0 then []
    else
      ItemsOf(rounds[..|rounds| - 1])
        + (if rounds[|rounds| - 1].reply.Answer? then rounds[|rounds| - 1].reply.page.items else [])
  }

  predicate DistinctCodes(items: seq<Item>) { forall i, j :: 0 <= i < j < |items| ==> items[i].code != items[j].code }

  /** A reason to give up: an abort, a failing request, or a page that breaks the contract. */
  ghost predicate Explained<C(!new)>(error: FetchError, requests: seq<Request<C>>, script: seq<Round<C>>, start: nat,
      setCode: string)
    requires start <= |requests| <= |script|
  {
    var n := |requests|;
    match error
    case Aborted => (n < |script| && script[n].abortedBefore) || (n > 0 && script[n - 1].abortedAfter)
    case RequestFailed => n > 0 && (script[n - 1].reply.Failed?
      || (script[n - 1].reply.Changed? && Attempts(requests) == MAX_VERSION_RESTARTS + 1))
    case Malformed =>
      && n > start
      && var sent, reply := requests[n - 1], script[n - 1].reply;
        || reply.NotAPage?
        || (reply.Answer? && !WellFormed(reply.page, setCode))
        || (reply.Answer? && sent.version.Some? && reply.page.version != sent.version.value
            && (sent.cursor.Some? || Attempts(requests) == MAX_VERSION_RESTARTS + 1))
        || !DistinctCodes(ItemsOf(script[start..n]))
  }

  lemma {:induction false} ItemsNext<C>(script: seq<Round<C>>, from: nat, end: nat)
    requires from <= end < |script| && script[end].reply.Answer?
    ensures ItemsOf(script[from..end + 1]) == ItemsOf(script[from..end]) + script[end].reply.page.items
  {
    assert script[from..end + 1][..end - from] == script[from..end];
  }

  lemma {:induction false} AttemptsNext<C>(requests: seq<Request<C>>, r: Request<C>)
    ensures Attempts(requests + [r]) == Attempts(requests) + (if r.cursor.None? then 1 else 0)
  {
    assert (requests + [r])[..|requests|] == requests;
  }

  /** Appends items until a code repeats. */
  method AddItems(items: seq<Item>, seenCodes: set<string>, more: seq<Item>)
    returns (added: bool, all: seq<Item>, seen: set<string>)
    requires DistinctCodes(items) && seenCodes == CodesOf(items)
    ensures added ==> all == items + more && DistinctCodes(all) && seen == CodesOf(all)
    ensures added <==> DistinctCodes(items + more)
  {
    hide DistinctCodes, CodesOf;
    all, seen := items, seenCodes;
    var k := 0;
    while k < |more|
      invariant k <= |more| && all == items + more[..k]
      invariant DistinctCodes(all) && seen == CodesOf(all)
    {
      var item := more[k];
      CodesOfNext(all, item);
      if item.code in seen {
        CodeRepeats(items, more, k);
        return false, all, seen;
      }
      seen := seen + {item.code};
      all := all + [item];
      k := k + 1;
      assert items + more[..k] == all;
    }
    assert more[..|more|] == more;
    added := true;
  }

  /**
   * Against any server: a returned aggregate has one version, is the concatenation of one
   * cursor-linked chain of pages ending without a cursor, has no duplicate code, and took at
   * most two restarts. The client gives up only for a reason it saw.
   */
  method FetchAll<C(!new)>(setCode: string, knownVersion: Option<int>,
      script: seq<Round<C>>) returns (outcome: Outcome, requests: seq<Request<C>>, start: nat)
    ensures Requested(requests, script, knownVersion)
    ensures Attempts(requests) <= MAX_VERSION_RESTARTS + 1
    ensures outcome.Done? ==>
      && start < |requests| && outcome.setCode == setCode
      && PagesOfOneAttempt(requests, script, start, |requests|, setCode, outcome.version)
      && CursorAfter(script[|requests| - 1].reply).None?
      && outcome.items == ItemsOf(script[start..|requests|])
      && DistinctCodes(outcome.items)
    ensures outcome.Thrown? ==> start <= |requests| && Explained(outcome.error, requests, script, start, setCode)
    ensures outcome == Waiting ==> |requests| == |script|
  {
    hide Attempts, ItemsOf, DistinctCodes, CodesOf;
    requests := [];
    start := 0;
    assert Attempts(requests) == 0 by { AttemptsEmpty<C>(); }
    var requestedVersion := knownVersion;
    var restartCount := 0;

    label aggregateAttempt:
    while true
      invariant Requested(requests, script, knownVersion)
      invariant restartCount <= MAX_VERSION_RESTARTS && Attempts(requests) == restartCount
      invariant |requests| == 0 ==> requestedVersion == knownVersion
      invariant |requests| > 0 ==>
        NextRequest(requests[|requests| - 1], script[|requests| - 1].reply) == Some(Request(requestedVersion, None))
      decreases |script| - |requests|
    {
      start := |requests|;
      var items: seq<Item> := [];
      var seenCodes: set<string> := {};
      var aggregateVersion: Option<int> := None;
      var cursor: Option<C> := None;
      assert script[start..start] == [];
      NoItems<C>();

      while true
        invariant start <= |requests| && Requested(requests, script, knownVersion)
        invariant restartCount <= MAX_VERSION_RESTARTS
        invariant Attempts(requests) == restartCount + (if |requests| > start then 1 else 0)
        invariant aggregateVersion.None? <==> |requests| == start
        invariant |requests| == start ==> cursor.None? && items == []
        invariant |requests| == 0 ==> requestedVersion == knownVersion
        invariant |requests| > 0 ==>
            NextRequest(requests[|requests| - 1], script[|requests| - 1].reply)
            == Some(Request(if aggregateVersion.Some? then aggregateVersion else requestedVersion, cursor))
        invariant aggregateVersion.Some? ==>
          cursor.Some? && PagesOfOneAttempt(requests, script, start, |requests|, setCode, aggregateVersion.value)
        invariant items == ItemsOf(script[start..|requests|]) && DistinctCodes(items)
        invariant seenCodes == CodesOf(items)
        decreases |script| - |requests|
      {
        var i := |requests|;
        if i == |script| { return Waiting, requests, start; }
        if script[i].abortedBefore { return Thrown(Aborted), requests, start; }
        var request := Request(if aggregateVersion.Some? then aggregateVersion else requestedVersion, cursor);
        AttemptsNext(requests, request);
        ghost var previous := requests;
        requests := requests + [request];
        var reply := script[i].reply;
        if reply.Changed? || reply.Failed? {
          if script[i].abortedAfter { return Thrown(Aborted), requests, start; }
          if reply.Changed? && restartCount < MAX_VERSION_RESTARTS {
            restartCount := restartCount + 1;
            requestedVersion := Some(reply.actual);
            continue aggregateAttempt;
          }
          return Thrown(RequestFailed), requests, start;
        }
        if script[i].abortedAfter { return Thrown(Aborted), requests, start; }
        if reply.NotAPage? || !WellFormed(reply.page, setCode) { return Thrown(Malformed), requests, start; }
        var page := reply.page;

        if aggregateVersion.None? {
          if requestedVersion.Some? && page.version != requestedVersion.value {
            if restartCount >= MAX_VERSION_RESTARTS { return Thrown(Malformed), requests, start; }
            restartCount := restartCount + 1;
            requestedVersion := Some(page.version);
            continue aggregateAttempt;
          }
          aggregateVersion := Some(page.version);
        } else if page.version != aggregateVersion.value {
          return Thrown(Malformed), requests, start;
        }

        ItemsNext(script, start, i);
        var added: bool;
        added, items, seenCodes := AddItems(items, seenCodes, page.items);
        if !added { return Thrown(Malformed), requests, start; }
        PagesExtend(previous, request, script, start, setCode, aggregateVersion.value);

        if page.nextCursor.None? { return Done(setCode, aggregateVersion.value, items), requests, start; }
        cursor := page.nextCursor;
      }
    }
  }

  lemma {:induction false} AttemptsEmpty<C>()
    ensures Attempts<C>([]) == 0
  {
  }

  lemma {:induction false} NoItems<C>()
    ensures ItemsOf<C>([]) == [] && DistinctCodes([]) && CodesOf([]) == {}
  {
  }

  function CodesOf(items: seq<Item>): set<string> {
    if |items| == 0 then {} else CodesOf(items[..|items| - 1]) + {items[|items| - 1].code}
  }

  lemma {:induction false} CodesOfMember(items: seq<Item>, k: nat)
    requires k < |items|
    ensures items[k].code in CodesOf(items)
  {
    if k < |items| - 1 { CodesOfMember(items[..|items| - 1], k); }
  }

  lemma {:induction false} CodesOfNext(items: seq<Item>, item: Item)
    ensures CodesOf(items + [item]) == CodesOf(items) + {item.code}
    ensures DistinctCodes(items) && item.code !in CodesOf(items) ==> DistinctCodes(items + [item])
  {
    assert (items + [item])[..|items|] == items;
    forall k | 0 <= k < |items| ensures items[k].code in CodesOf(items) { CodesOfMember(items, k); }
  }

  lemma {:induction false} CodesOfOrigin(items: seq<Item>, code: string) returns (k: nat)
    requires code in CodesOf(items)
    ensures k < |items| && items[k].code == code
  {
    var n := |items| - 1;
    if items[n].code == code { k := n; } else { k := CodesOfOrigin(items[..n], code); }
  }

  lemma {:induction false} CodeRepeats(items: seq<Item>, more: seq<Item>, k: nat)
    requires k < |more| && more[k].code in CodesOf(items + more[..k])
    ensures !DistinctCodes(items + more)
  {
    var j := CodesOfOrigin(items + more[..k], more[k].code);
    var all := items + more;
    assert all[j] == (items + more[..k])[j] && all[|items| + k] == more[k];
  }

  // ---------------------------------------------------------------- an honest server

  /** What the server holds when a request arrives. */
  datatype ChoiceSet = ChoiceSet(code: string, version: nat, options: seq<Item>)

  datatype ChoiceCursor = ChoiceCursor(version: int, position: Key)

  function OptionKey(x: Item): Key { [Num(x.sortOrder), Txt(x.code)] }

  function Listed(options: seq<Item>, includeInactive: bool): seq<Item> {
    if |options| == 0 then []
    else (if includeInactive || options[0].isActive then [options[0]] else []) + Listed(options[1..], includeInactive)
  }

  /** Every option the set offers, in order. */
  function AllOptions(held: ChoiceSet, includeInactive: bool): seq<Item> {
    SortBy(Listed(held.options, includeInactive), OptionKey)
  }

  /** list_options: a stale version is refused with the held one; otherwise a keyset page. */
  function HonestReply(held: ChoiceSet, request: Request<ChoiceCursor>, includeInactive: bool): Reply<ChoiceCursor> {
    if request.cursor.Some? && request.version.Some?
      && request.cursor.value.version != request.version.value then Failed
    else
      var expected := if request.cursor.Some? then Some(request.cursor.value.version) else request.version;
      if expected.Some? && expected.value != held.version then Changed(held.version)
      else
        var page := TakePage(AllOptions(held, includeInactive), OptionKey,
          if request.cursor.Some? then Some(request.cursor.value.position) else None, OPTION_PAGE_LIMIT);
        Answer(Page(held.code, held.version, page.items,
          if page.next.Some? then Some(ChoiceCursor(held.version, page.next.value)) else None))
  }

  lemma {:induction false} ListedDistinct(options: seq<Item>, includeInactive: bool)
    requires DistinctCodes(options)
    ensures DistinctKeys(Listed(options, includeInactive), OptionKey)
    ensures forall x :: x in Listed(options, includeInactive) ==> x in options
  {
    if |options| > 0 {
      ListedDistinct(options[1..], includeInactive);
      var rest := Listed(options[1..], includeInactive);
      assert options == [options[0]] + options[1..];
      forall k | 0 <= k < |rest| ensures OptionKey(rest[k]) != OptionKey(options[0]) {
        assert rest[k] in options[1..];
        var j := IndexOf(options[1..], rest[k]);
        assert options[0].code != options[j + 1].code;
      }
      DistinctHead(options[0], rest);
    }
  }

  lemma {:induction false} DistinctHead(x: Item, rest: seq<Item>)
    requires DistinctKeys(rest, OptionKey) && forall k :: 0 <= k < |rest| ==> OptionKey(rest[k]) != OptionKey(x)
    ensures DistinctKeys([x] + rest, OptionKey)
  {
    hide OptionKey;
  }

  lemma {:induction false} AllOptionsSorted(held: ChoiceSet, includeInactive: bool)
    requires DistinctCodes(held.options)
    ensures StrictlySorted(AllOptions(held, includeInactive), OptionKey)
  {
    hide SortBy, Listed, OptionKey, KeyLess;
    ListedDistinct(held.options, includeInactive);
    SortProps(Listed(held.options, includeInactive), OptionKey);
  }

  /** The rounds of an honest server: the set may change between requests, and every change has a new version. */
  ghost predicate HonestRounds(requests: seq<Request<ChoiceCursor>>, script: seq<Round<ChoiceCursor>>,
      held: seq<ChoiceSet>, includeInactive: bool) {
    && |requests| <= |script| && |held| == |script|
    && (forall i :: 0 <= i < |requests| ==> script[i].reply == HonestReply(held[i], requests[i], includeInactive))
    && (forall i :: 0 <= i < |held| ==> DistinctCodes(held[i].options))
    && (forall i, j :: 0 <= i < |held| && 0 <= j < |held| && held[i].version == held[j].version ==> held[i] == held[j])
  }

  /** The collected items are a prefix of all, and the cursor stands behind it. */
  predicate ServedPrefix(all: seq<Item>, version: int, collected: seq<Item>, next: Option<ChoiceCursor>) {
    && collected <= all
    && if next.Some? then collected != [] && next.value == ChoiceCursor(version, OptionKey(collected[|collected| - 1]))
       else collected == all
  }

  /** One more page of the held version. */
  lemma {:induction false} NextServed(held: ChoiceSet, before: seq<Item>, request: Request<ChoiceCursor>,
      includeInactive: bool)
    requires DistinctCodes(held.options) && before <= AllOptions(held, includeInactive)
    requires request.version.Some? ==> request.version.value == held.version
    requires if before == [] then request.cursor.None?
      else request.cursor == Some(ChoiceCursor(held.version, OptionKey(before[|before| - 1])))
    ensures var reply := HonestReply(held, request, includeInactive);
      && reply.Answer?
      && ServedPrefix(AllOptions(held, includeInactive), held.version, before + reply.page.items, CursorAfter(reply))
  {
    hide AllOptions, OptionKey, SortBy, KeyLess, TakePage, StrictlySorted, DistinctCodes;
    var all := AllOptions(held, includeInactive);
    AllOptionsSorted(held, includeInactive);
    assert before == all[..|before|];
    PageAt(all, OptionKey, |before|, OPTION_PAGE_LIMIT);
  }

  lemma {:induction false} ServedBefore(all: seq<Item>, version: int, collected: seq<Item>, next: Option<ChoiceCursor>)
    requires ServedPrefix(all, version, collected, next) && next.Some?
    ensures collected <= all && collected != []
    ensures next.value == ChoiceCursor(version, OptionKey(collected[|collected| - 1]))
  {
  }

  lemma {:induction false} HonestRound(requests: seq<Request<ChoiceCursor>>, script: seq<Round<ChoiceCursor>>,
      held: seq<ChoiceSet>, includeInactive: bool, i: nat)
    requires HonestRounds(requests, script, held, includeInactive) && i < |requests|
    ensures |requests| <= |script| && |held| == |script|
    ensures script[i].reply == HonestReply(held[i], requests[i], includeInactive) && DistinctCodes(held[i].options)
    ensures script[i].reply.Answer? ==> held[i].version == script[i].reply.page.version
    ensures forall j: nat :: j < |held| && held[j].version == held[i].version ==> held[j] == held[i]
  {
    hide AllOptions, OptionKey, TakePage, DistinctCodes;
  }

  /** After each page of an attempt the collected items are a prefix, and the cursor stands behind it. */
  lemma {:induction false} CollectedPrefix(requests: seq<Request<ChoiceCursor>>, script: seq<Round<ChoiceCursor>>,
      held: seq<ChoiceSet>, includeInactive: bool, setCode: string, version: int, start: nat, end: nat)
    requires HonestRounds(requests, script, held, includeInactive) && start < end <= |requests|
    requires PagesOfOneAttempt(requests, script, start, end, setCode, version)
    ensures held[start].version == version
    ensures ServedPrefix(AllOptions(held[start], includeInactive), version, ItemsOf(script[start..end]),
      CursorAfter(script[end - 1].reply))
    decreases end
  {
    hide AllOptions, OptionKey, ItemsOf, HonestReply, DistinctCodes, HonestRounds, ServedPrefix, WellFormed;
    var i := end - 1;
    HonestRound(requests, script, held, includeInactive, start);
    HonestRound(requests, script, held, includeInactive, i);
    assert PageRound(requests, script, start, start, setCode, version);
    assert PageRound(requests, script, start, i, setCode, version);
    hide PageRound;
    if i > start {
      CollectedPrefix(requests, script, held, includeInactive, setCode, version, start, i);
      ServedBefore(AllOptions(held[start], includeInactive), version, ItemsOf(script[start..i]),
        CursorAfter(script[i - 1].reply));
    } else {
      assert script[start..i] == [];
      NoItems<ChoiceCursor>();
    }
    hide PagesOfOneAttempt;
    var before := ItemsOf(script[start..i]);
    NextServed(held[i], before, requests[i], includeInactive);
    ItemsNext(script, start, i);
  }

  /**
   * Against an honest server whose set changes between requests, the aggregate is the full list of
   * a version it held.
   */
  lemma {:induction false} HonestAggregate(requests: seq<Request<ChoiceCursor>>, script: seq<Round<ChoiceCursor>>,
      held: seq<ChoiceSet>, includeInactive: bool, setCode: string, version: int, items: seq<Item>, start: nat)
    requires HonestRounds(requests, script, held, includeInactive) && start < |requests|
    requires PagesOfOneAttempt(requests, script, start, |requests|, setCode, version)
    requires CursorAfter(script[|requests| - 1].reply).None?
    requires items == ItemsOf(script[start..|requests|])
    ensures exists i :: 0 <= i < |held| && held[i].version == version && items == AllOptions(held[i], includeInactive)
  {
    hide AllOptions, ItemsOf, HonestReply;
    CollectedPrefix(requests, script, held, includeInactive, setCode, version, start, |requests|);
  }

  /** An honest server never makes the client see a duplicate or a second version within an attempt. */
  lemma {:induction false} HonestPagesFit(held: ChoiceSet, request: Request<ChoiceCursor>, includeInactive: bool)
    requires request.cursor.Some? ==> request.version == Some(request.cursor.value.version)
    ensures var reply := HonestReply(held, request, includeInactive);
      && (reply.Answer? <==> request.version.None? || request.version.value == held.version)
      && (reply.Answer? ==>
        reply.page.version == held.version && (request.version.Some? ==> reply.page.version == request.version.value))
      && (!reply.Answer? ==> reply == Changed(held.version))
  {
    hide AllOptions, TakePage;
  }
}
