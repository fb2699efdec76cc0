/** api/internal/ai: from the ids of a summarize request to the saved summary. */
module Summaries {
  import opened Wrappers
  import opened Strings
  import opened Payloads
  import opened EventTable
  import EventStore

  const MAX_EVENTS := 20

  // ----- Normalizing ids -----

  /** The trimmed, non-empty ids, each at its first occurrence. */
  function Deduped(ids: seq<string>): seq<string> {
    if |ids| == 0 then []
    else
      var earlier := Deduped(ids[..|ids| - 1]);
      var id := TrimSpace(ids[|ids| - 1]);
      if id == "" || id in earlier then earlier else earlier + [id]
  }

  method NormalizeIDs(ids: seq<string>) returns (out: seq<string>)
    ensures out == Deduped(ids)
  {
    var seen: set<string> := {};
    out := [];
    for i := 0 to |ids|
      invariant out == Deduped(ids[..i])
      invariant forall id :: id in seen <==> id in out
    {
      assert ids[..i + 1][..i] == ids[..i];
      var id := TrimSpace(ids[i]);
      if id == "" || id in seen {
        continue;
      }
      seen := seen + {id};
      out := out + [id];
    }
    assert ids[..|ids|] == ids;
  }

  ghost predicate Distinct(ids: seq<string>) {
    forall i, j :: 0 <= i < j < |ids| ==> ids[i] != ids[j]
  }

  /** Some id of the request is x, spaces aside. */
  ghost predicate Mentions(ids: seq<string>, x: string) {
    exists i :: 0 <= i < |ids| && TrimSpace(ids[i]) == x
  }

  lemma MentionsGrows(ids: seq<string>, x: string)
    requires |ids| > 0
    ensures Mentions(ids, x) <==> Mentions(ids[..|ids| - 1], x) || TrimSpace(ids[|ids| - 1]) == x
  {
    var rest := ids[..|ids| - 1];
    if Mentions(ids, x) {
      var i :| 0 <= i < |ids| && TrimSpace(ids[i]) == x;
      assert i < |rest| ==> rest[i] == ids[i];
    }
    if Mentions(rest, x) {
      var i :| 0 <= i < |rest| && TrimSpace(rest[i]) == x;
      assert ids[i] == rest[i];
    }
  }

  /** Nothing is lost, invented or repeated. */
  lemma {:induction false} DedupedContents(ids: seq<string>)
    ensures Distinct(Deduped(ids))
    ensures forall x :: x in Deduped(ids) <==> x != "" && Mentions(ids, x)
  {
    if |ids| > 0 {
      DedupedContents(ids[..|ids| - 1]);
      forall x
        ensures x in Deduped(ids) <==> x != "" && Mentions(ids, x)
      {
        MentionsGrows(ids, x);
      }
    }
  }

  /** Ids come out in the order of their first occurrence: dropping the end of the request drops only later ids. */
  lemma {:induction false} DedupedKeepsOrder(ids: seq<string>, n: nat)
    requires n <= |ids|
    ensures Deduped(ids[..n]) <= Deduped(ids)
  {
    if n < |ids| {
      assert ids[..|ids| - 1][..n] == ids[..n];
      DedupedKeepsOrder(ids[..|ids| - 1], n);
    } else {
      assert ids[..n] == ids;
    }
  }

  lemma TrimTwice(s: string)
    ensures TrimSpace(TrimSpace(s)) == TrimSpace(s)
  {
    var t := TrimLeft(s);
    var u := TrimRight(t);
    TrimLeftCut(s);
    TrimRightCut(t);
    if |u| > 0 {
      assert u[0] == t[0];
    }
  }

  predicate Clean(id: string) {
    id != "" && TrimSpace(id) == id
  }

  /** Distinct, non-empty, trimmed ids pass through unchanged. */
  lemma {:induction false} DedupedFixes(ids: seq<string>)
    requires Distinct(ids) && forall i :: 0 <= i < |ids| ==> Clean(ids[i])
    ensures Deduped(ids) == ids
  {
    if |ids| > 0 {
      var n := |ids| - 1;
      DedupedFixes(ids[..n]);
      assert Clean(ids[n]) && ids[n] !in ids[..n];
      assert ids == ids[..n] + [ids[n]];
    }
  }

  lemma DedupedIdempotent(ids: seq<string>)
    ensures Deduped(Deduped(ids)) == Deduped(ids)
  {
    var out := Deduped(ids);
    DedupedContents(ids);
    forall i | 0 <= i < |out|
      ensures Clean(out[i])
    {
      assert out[i] in out;
      assert Mentions(ids, out[i]);
      var j :| 0 <= j < |ids| && TrimSpace(ids[j]) == out[i];
      TrimTwice(ids[j]);
    }
    DedupedFixes(out);
  }

  // ----- Comparing ids -----

  /** Go's slices.Equal. */
  method EqualArrays(a: array<string>, b: array<string>) returns (same: bool)
    requires a.Length == b.Length
    ensures same <==> a[..] == b[..]
  {
    for i := 0 to a.Length
      invariant forall j :: 0 <= j < i ==> a[j] == b[j]
    {
      if a[i] != b[i] {
        assert a[..][i] != b[..][i];
        return false;
      }
    }
    return true;
  }

  /** Sorting compares exactly the multisets. */
  lemma SortedDecides(got: seq<string>, want: seq<string>)
    ensures Sorted(got) == Sorted(want) <==> multiset(got) == multiset(want)
  {
    if multiset(got) == multiset(want) {
      assert |multiset(got)| == |got| && |multiset(want)| == |want|;
      SortedUnique(Sorted(got), Sorted(want));
    }
  }

  method CopyOf(ids: seq<string>) returns (a: array<string>)
    ensures fresh(a) && a[..] == ids
  {
    a := new string[|ids|];
    forall i | 0 <= i < |ids| {
      a[i] := ids[i];
    }
  }

  method SameIDs(got: seq<string>, want: seq<string>) returns (same: bool)
    ensures same <==> multiset(got) == multiset(want)
  {
    SortedDecides(got, want);
    if |got| != |want| {
      return false;
    }
    var a := CopyOf(got);
    var b := CopyOf(want);
    SortInPlace(a);
    SortInPlace(b);
    same := EqualArrays(a, b);
  }

  // ----- Event ids as text -----

  /** How the database reads an id from text, and the one text it writes for it. */
  datatype Codec = Codec(parse: string -> Option<nat>, render: nat -> string)

  ghost predicate Lawful(c: Codec) {
    c.parse("").None? && forall id: nat :: c.parse(c.render(id)) == Some(id)
  }

  predicate Canonical(c: Codec, text: string) {
    var id := c.parse(text);
    id.Some? && c.render(id.value) == text
  }

  predicate Owned(c: Codec, rows: seq<Event>, user: nat, text: string) {
    var id := c.parse(text);
    id.Some? && id.value < |rows| && rows[id.value].input.user == user
  }

  /** The ids of the user's rows that the request names. */
  function Found(c: Codec, rows: seq<Event>, user: nat, texts: seq<string>): set<nat> {
    set i | 0 <= i < |texts| && Owned(c, rows, user, texts[i]) :: c.parse(texts[i]).value
  }

  /** The texts name pairwise different rows of the user. */
  ghost predicate NamesOwnRows(c: Codec, rows: seq<Event>, user: nat, texts: seq<string>) {
    && (forall i :: 0 <= i < |texts| ==> Owned(c, rows, user, texts[i]))
    && (forall i, j :: 0 <= i < j < |texts| ==> c.parse(texts[i]) != c.parse(texts[j]))
  }

  lemma FoundGrows(c: Codec, rows: seq<Event>, user: nat, texts: seq<string>)
    requires |texts| > 0
    ensures var n := |texts| - 1;
            Found(c, rows, user, texts)
            == Found(c, rows, user, texts[..n])
               + if Owned(c, rows, user, texts[n]) then {c.parse(texts[n]).value} else {}
  {
    var n := |texts| - 1;
    var before, after := Found(c, rows, user, texts[..n]), Found(c, rows, user, texts);
    forall id | id in before
      ensures id in after
    {
      var i :| 0 <= i < n && Owned(c, rows, user, texts[..n][i]) && c.parse(texts[..n][i]).value == id;
      assert Owned(c, rows, user, texts[i]);
    }
    forall id | id in after && !(Owned(c, rows, user, texts[n]) && id == c.parse(texts[n]).value)
      ensures id in before
    {
      var i :| 0 <= i < |texts| && Owned(c, rows, user, texts[i]) && c.parse(texts[i]).value == id;
      assert Owned(c, rows, user, texts[..n][i]);
    }
  }

  /** A text more names own rows exactly when the others do and it names another row of the user. */
  lemma NamesGrow(c: Codec, rows: seq<Event>, user: nat, texts: seq<string>)
    requires |texts| > 0
    ensures var n := |texts| - 1;
            NamesOwnRows(c, rows, user, texts) <==>
            && NamesOwnRows(c, rows, user, texts[..n])
            && Owned(c, rows, user, texts[n]) && c.parse(texts[n]).value !in Found(c, rows, user, texts[..n])
  {
    var n := |texts| - 1;
    var rest := texts[..n];
    if NamesOwnRows(c, rows, user, texts) {
      forall i | 0 <= i < n
        ensures Owned(c, rows, user, rest[i]) && c.parse(rest[i]) != c.parse(texts[n])
      {
        assert rest[i] == texts[i];
      }
    }
    if NamesOwnRows(c, rows, user, rest) && Owned(c, rows, user, texts[n])
       && c.parse(texts[n]).value !in Found(c, rows, user, rest)
    {
      forall i | 0 <= i < n
        ensures Owned(c, rows, user, texts[i]) && c.parse(texts[i]) != c.parse(texts[n])
      {
        assert rest[i] == texts[i] && Owned(c, rows, user, rest[i]);
        assert c.parse(rest[i]).value in Found(c, rows, user, rest);
      }
      forall i, j | 0 <= i < j < n
        ensures c.parse(texts[i]) != c.parse(texts[j])
      {
        assert rest[i] == texts[i] && rest[j] == texts[j];
      }
    }
  }

  /**
   The ownership check by counting: as many rows come back as there are texts exactly when every text names a row
   of the user and no two name the same one.
   */
  lemma {:induction false} CountProvesOwnership(c: Codec, rows: seq<Event>, user: nat, texts: seq<string>)
    ensures |Found(c, rows, user, texts)| <= |texts|
    ensures |Found(c, rows, user, texts)| == |texts| <==> NamesOwnRows(c, rows, user, texts)
  {
    if |texts| > 0 {
      CountProvesOwnership(c, rows, user, texts[..|texts| - 1]);
      FoundGrows(c, rows, user, texts);
      NamesGrow(c, rows, user, texts);
    }
  }

  // ----- Summarize -----

  /** What the prompt says about one event; a field the event lacks is left empty. */
  datatype Fact = Fact(kind: string, amount: Option<real>, status: Option<Status>, ruleName: string)

  datatype Summary = Summary(
    title: string,
    bullets: seq<string>,
    riskLevel: string,
    followUps: Option<seq<string>>,
    eventIds: seq<string>)

  /** Who asks, if authenticated, and the decoded ids, if the body is valid JSON. */
  datatype Request = Request(user: Option<nat>, ids: Option<seq<string>>)

  /** Statements that fail for reasons of their own. */
  datatype Faults = Faults(loadFails: bool, namesFail: bool, saveFails: bool)

  datatype Response =
    | Unauthorized
    | InvalidJson
    | ValidationError
    | LoadFailed
    | MissingEvents
    | NamesFailed
    | ProviderFailed
    | SchemaError
    | SaveFailed
    | Done(summary: Summary)

  /** A row of ai_summaries. */
  datatype Saved = Saved(user: nat, eventIds: seq<string>, summary: Summary)

  type Provider = (seq<Fact>, seq<string>) -> Option<Summary>

  predicate ValidSummary(s: Summary) {
    && s.title != "" && |s.bullets| > 0
    && s.riskLevel in {"low", "medium", "high", "unknown"}
    && s.followUps.Some? && |s.eventIds| > 0
  }

  /** The loaded rows are keyed by canonical text; looking up another text yields an event with all fields empty. */
  function FactFor(c: Codec, rows: seq<Event>, names: map<nat, string>, text: string): Fact {
    var id := c.parse(text);
    if id.Some? && id.value < |rows| && c.render(id.value) == text then
      var e := rows[id.value];
      var amount := PayloadAmount(e.input.payload);
      Fact(e.input.kind, if amount.Success? then amount.value else None, Some(e.status),
           if e.matched.Some? && e.matched.value in names then names[e.matched.value] else "")
    else
      Fact("", None, None, "")
  }

  function FactsFor(c: Codec, rows: seq<Event>, names: map<nat, string>, texts: seq<string>): seq<Fact> {
    seq(|texts|, i requires 0 <= i < |texts| => FactFor(c, rows, names, texts[i]))
  }

  function IdFor(c: Codec, text: string): string {
    if Canonical(c, text) then text else ""
  }

  function IdsFor(c: Codec, texts: seq<string>): seq<string> {
    seq(|texts|, i requires 0 <= i < |texts| => IdFor(c, texts[i]))
  }

  predicate AllParse(c: Codec, texts: seq<string>) {
    forall i :: 0 <= i < |texts| ==> c.parse(texts[i]).Some?
  }

  /** The response to a request. */
  function Outcome(c: Codec, rows: seq<Event>, names: map<nat, string>, request: Request, provider: Provider,
                   faults: Faults): Response
  {
    if request.user.None? then Unauthorized
    else if request.ids.None? then InvalidJson
    else Answer(c, rows, names, request.user.value, Deduped(request.ids.value), provider, faults)
  }

  /** The answer to normalized ids, branch by branch. */
  function Answer(c: Codec, rows: seq<Event>, names: map<nat, string>, user: nat, texts: seq<string>,
                  provider: Provider, faults: Faults): Response
  {
    if |texts| == 0 || |texts| > MAX_EVENTS then ValidationError
    else if faults.loadFails || !AllParse(c, texts) then LoadFailed
    else if |Found(c, rows, user, texts)| != |texts| then MissingEvents
    else if faults.namesFail then NamesFailed
    else Verdict(c, provider(FactsFor(c, rows, names, texts), IdsFor(c, texts)), IdsFor(c, texts), faults.saveFails)
  }

  /** What becomes of the provider's reply for these ids. */
  function Verdict(c: Codec, reply: Option<Summary>, ids: seq<string>, saveFails: bool): Response {
    if reply.None? then ProviderFailed
    else if !Fits(reply.value, ids) then SchemaError
    else if saveFails || !AllParse(c, ids) then SaveFailed
    else Done(reply.value.(eventIds := ids))
  }

  /** The provider's summary is well formed and names just these ids. */
  predicate Fits(summary: Summary, ids: seq<string>) {
    ValidSummary(summary) && multiset(summary.eventIds) == multiset(ids)
  }

  /** The fact and the id of the event loaded under a text. */
  method GatherFact(c: Codec, ghost rows: seq<Event>, evs: map<nat, Event>, names: map<nat, string>, text: string)
    returns (fact: Fact, orderedId: string)
    requires forall id :: id in evs ==> id < |rows| && evs[id] == rows[id]
    requires c.parse(text).Some? && c.parse(text).value in evs
    ensures fact == FactFor(c, rows, names, text) && orderedId == IdFor(c, text)
  {
    var id := c.parse(text).value;
    if c.render(id) != text {
      return Fact("", None, None, ""), "";
    }
    var e := evs[id];
    var amount := PayloadAmount(e.input.payload);
    var ruleName := "";
    if e.matched.Some? && e.matched.value in names {
      ruleName := names[e.matched.value];
    }
    return Fact(e.input.kind, if amount.Success? then amount.value else None, Some(e.status), ruleName), text;
  }

  /** The facts and ids of the loaded events, in request order. */
  method GatherFacts(c: Codec, ghost rows: seq<Event>, evs: map<nat, Event>, names: map<nat, string>,
                     texts: seq<string>)
    returns (facts: seq<Fact>, ids: seq<string>)
    requires forall id :: id in evs ==> id < |rows| && evs[id] == rows[id]
    requires forall i :: 0 <= i < |texts| ==> c.parse(texts[i]).Some? && c.parse(texts[i]).value in evs
    ensures facts == FactsFor(c, rows, names, texts) && ids == IdsFor(c, texts)
  {
    facts, ids := [], [];
    for i := 0 to |texts|
      invariant facts == FactsFor(c, rows, names, texts)[..i] && ids == IdsFor(c, texts)[..i]
    {
      var fact, id := GatherFact(c, rows, evs, names, texts[i]);
      facts, ids := facts + [fact], ids + [id];
    }
  }

  /** The ids the database reads from the texts. */
  function Wanted(c: Codec, texts: seq<string>): set<nat>
    requires AllParse(c, texts)
  {
    set i | 0 <= i < |texts| :: c.parse(texts[i]).value
  }

  /** As many rows are loaded as the texts name; if that is one for each text, each text's row is among them. */
  lemma LoadedAreFound(c: Codec, rows: seq<Event>, user: nat, texts: seq<string>, evs: map<nat, Event>)
    requires AllParse(c, texts)
    requires forall id :: id in evs <==>
                          && id in Wanted(c, texts)
                          && id < |rows| && rows[id].input.user == user
    ensures |evs| == |Found(c, rows, user, texts)|
    ensures |evs| == |texts| ==> forall i :: 0 <= i < |texts| ==> c.parse(texts[i]).value in evs
  {
    assert evs.Keys == Found(c, rows, user, texts);
    CountProvesOwnership(c, rows, user, texts);
    if |evs| == |texts| {
      forall i | 0 <= i < |texts|
        ensures c.parse(texts[i]).value in evs
      {
        assert Owned(c, rows, user, texts[i]);
      }
    }
  }

  class Handler {
    const events: EventStore.Store
    var saved: seq<Saved>

    constructor (events: EventStore.Store)
      ensures this.events == events && saved == []
    {
      this.events, saved := events, [];
    }

    method Summarize(c: Codec, request: Request, names: map<nat, string>, provider: Provider, faults: Faults)
      returns (response: Response)
      requires Lawful(c)
      modifies this
      ensures response == Outcome(c, events.rows, names, request, provider, faults)
      ensures saved == old(saved)
                       + if response.Done?
                         then [Saved(request.user.value, response.summary.eventIds, response.summary)] else []
    {
      if request.user.None? {
        return Unauthorized;
      }
      var user := request.user.value;
      if request.ids.None? {
        return InvalidJson;
      }
      var texts := NormalizeIDs(request.ids.value);
      response := SummarizeIDs(c, user, texts, names, provider, faults);
    }

    /** Loads the events, asks the provider and stores the summary. */
    method SummarizeIDs(c: Codec, user: nat, texts: seq<string>, names: map<nat, string>, provider: Provider,
                        faults: Faults)
      returns (response: Response)
      requires Lawful(c)
      modifies this
      ensures response == Answer(c, events.rows, names, user, texts, provider, faults)
      ensures saved == old(saved)
                       + if response.Done? then [Saved(user, response.summary.eventIds, response.summary)] else []
    {
      if |texts| == 0 || |texts| > MAX_EVENTS {
        return ValidationError;
      }
      if faults.loadFails || !AllParse(c, texts) {
        return LoadFailed;
      }
      var evs := events.GetForUserIDs(user, Wanted(c, texts));
      LoadedAreFound(c, events.rows, user, texts, evs);
      if |evs| != |texts| {
        return MissingEvents;
      }
      if faults.namesFail {
        return NamesFailed;
      }
      var facts, ids := GatherFacts(c, events.rows, evs, names, texts);
      response := CheckAndSave(c, user, provider(facts, ids), ids, faults.saveFails);
    }

    /** Checks the provider's reply, puts the ids in request order and stores the summary. */
    method CheckAndSave(c: Codec, user: nat, reply: Option<Summary>, ids: seq<string>, saveFails: bool)
      returns (response: Response)
      modifies this
      ensures response == Verdict(c, reply, ids, saveFails)
      ensures response == ProviderFailed <==> reply.None?
      ensures response == SchemaError <==>
              && reply.Some?
              && var s := reply.value;
                 || s.title == "" || s.bullets == [] || s.followUps.None? || s.eventIds == []
                 || (s.riskLevel != "low" && s.riskLevel != "medium" && s.riskLevel != "high"
                     && s.riskLevel != "unknown")
                 || multiset(s.eventIds) != multiset(ids)
      ensures response.Done? ==>
                && var s, told := response.summary, reply.value;
                   && s.title == told.title && s.bullets == told.bullets && s.riskLevel == told.riskLevel
                   && s.followUps == told.followUps && s.eventIds == ids
      ensures saved == old(saved)
                       + if response.Done? then [Saved(user, response.summary.eventIds, response.summary)] else []
    {
      if reply.None? {
        return ProviderFailed;
      }
      var same := SameIDs(reply.value.eventIds, ids);
      if !ValidSummary(reply.value) || !same {
        return SchemaError;
      }
      if saveFails || !AllParse(c, ids) {
        return SaveFailed;
      }
      var summary := reply.value.(eventIds := ids);
      saved := saved + [Saved(user, ids, summary)];
      return Done(summary);
    }
  }

  /** The texts pass the count check and nothing fails before the provider is asked. */
  ghost predicate Asks(c: Codec, rows: seq<Event>, user: nat, texts: seq<string>, faults: Faults) {
    && !faults.loadFails && !faults.namesFail
    && 1 <= |texts| <= MAX_EVENTS && NamesOwnRows(c, rows, user, texts)
  }

  ghost predicate AllCanonical(c: Codec, texts: seq<string>) {
    forall i :: 0 <= i < |texts| ==> Canonical(c, texts[i])
  }

  /** The number an event carries, null counting as zero. */
  function NumberIn(payload: Payload): Option<real> {
    match payload
    case Object(Number(amount)) => Some(amount)
    case Object(NullAmount) => Some(0.0)
    case _ => None
  }

  /**
   What the provider is told about own events asked for by their canonical ids: type, number, status and rule name of
   each, in the order of the request.
   */
  lemma FactsOfOwnEvents(c: Codec, rows: seq<Event>, names: map<nat, string>, user: nat, texts: seq<string>, i: nat)
    requires Lawful(c) && NamesOwnRows(c, rows, user, texts) && AllCanonical(c, texts) && i < |texts|
    ensures var facts, id := FactsFor(c, rows, names, texts), c.parse(texts[i]);
            && |facts| == |texts| && id.Some? && id.value < |rows| && rows[id.value].input.user == user
            && var e, fact := rows[id.value], facts[i];
               && fact.kind == e.input.kind && fact.amount == NumberIn(e.input.payload) && fact.status == Some(e.status)
               && fact.ruleName == match e.matched
                                   case Some(rule) => if rule in names then names[rule] else ""
                                   case None => ""
  {
    assert Owned(c, rows, user, texts[i]) && Canonical(c, texts[i]);
  }

  /** Which error a request that is not answered with a summary gets, from the first check to the provider. */
  lemma RefusalsExactly(c: Codec, rows: seq<Event>, names: map<nat, string>, request: Request, provider: Provider,
                        faults: Faults)
    requires Lawful(c)
    ensures var response := Outcome(c, rows, names, request, provider, faults);
            && (response == Unauthorized <==> request.user.None?)
            && (response == InvalidJson <==> request.user.Some? && request.ids.None?)
            && (request.user.Some? && request.ids.Some? ==>
                  var user, texts := request.user.value, Deduped(request.ids.value);
                  && (response == ValidationError <==> |texts| == 0 || |texts| > 20)
                  && (1 <= |texts| <= 20 ==>
                        && (response == LoadFailed <==>
                              faults.loadFails || exists i :: 0 <= i < |texts| && c.parse(texts[i]).None?)
                        && (response == MissingEvents <==>
                              && !faults.loadFails && (forall i :: 0 <= i < |texts| ==> c.parse(texts[i]).Some?)
                              && !NamesOwnRows(c, rows, user, texts))
                        && (response == NamesFailed <==>
                              !faults.loadFails && NamesOwnRows(c, rows, user, texts) && faults.namesFail)
                        && (response == ProviderFailed <==>
                              && Asks(c, rows, user, texts, faults)
                              && provider(FactsFor(c, rows, names, texts), IdsFor(c, texts)).None?)))
  {
    if request.user.Some? && request.ids.Some? {
      RefusalOf(c, rows, names, request.user.value, Deduped(request.ids.value), provider, faults);
    }
  }

  lemma RefusalOf(c: Codec, rows: seq<Event>, names: map<nat, string>, user: nat, texts: seq<string>,
                  provider: Provider, faults: Faults)
    ensures var answer := Answer(c, rows, names, user, texts, provider, faults);
            && answer != Unauthorized && answer != InvalidJson
            && (answer == ValidationError <==> |texts| == 0 || |texts| > 20)
            && (1 <= |texts| <= 20 ==>
                  && (answer == LoadFailed <==> faults.loadFails || !AllParse(c, texts))
                  && (answer == MissingEvents <==>
                        !faults.loadFails && AllParse(c, texts) && !NamesOwnRows(c, rows, user, texts))
                  && (answer == NamesFailed <==>
                        !faults.loadFails && NamesOwnRows(c, rows, user, texts) && faults.namesFail)
                  && (answer == ProviderFailed <==>
                        && Asks(c, rows, user, texts, faults)
                        && provider(FactsFor(c, rows, names, texts), IdsFor(c, texts)).None?))
  {
    CountProvesOwnership(c, rows, user, texts);
    assert NamesOwnRows(c, rows, user, texts) ==> forall i :: 0 <= i < |texts| ==> Owned(c, rows, user, texts[i]);
  }

  lemma AnswerExactly(c: Codec, rows: seq<Event>, names: map<nat, string>, user: nat, texts: seq<string>,
                      provider: Provider, faults: Faults)
    requires Lawful(c)
    ensures var answer := Answer(c, rows, names, user, texts, provider, faults);
            var reply := provider(FactsFor(c, rows, names, texts), IdsFor(c, texts));
            && (answer.Done? || answer.SaveFailed? <==>
                  Asks(c, rows, user, texts, faults) && reply.Some? && Fits(reply.value, IdsFor(c, texts)))
            && (answer.Done? ==> !faults.saveFails && AllCanonical(c, texts) && IdsFor(c, texts) == texts)
            && (answer.Done? ==> answer.summary == reply.value.(eventIds := texts))
            && (answer.SaveFailed? ==> faults.saveFails || !AllCanonical(c, texts))
    ensures AllCanonical(c, texts) ==> IdsFor(c, texts) == texts
  {
    CountProvesOwnership(c, rows, user, texts);
    assert NamesOwnRows(c, rows, user, texts) ==> forall i :: 0 <= i < |texts| ==> Owned(c, rows, user, texts[i]);
    IdsAreCanonical(c, texts);
  }

  /**
   A summary is saved and returned exactly when an authenticated request has 1 to 20 ids once deduplicated, each the
   canonical text of a different event of the caller, no statement fails, and the provider's summary is valid and
   names just these ids.  Its event_ids are then the deduplicated request in request order.
   */
  lemma SummaryIsForOwnEvents(c: Codec, rows: seq<Event>, names: map<nat, string>, request: Request,
                              provider: Provider, faults: Faults)
    requires Lawful(c)
    ensures var response := Outcome(c, rows, names, request, provider, faults);
            && (response.Done? <==>
                  && request.user.Some? && request.ids.Some?
                  && var texts := Deduped(request.ids.value);
                     var reply := provider(FactsFor(c, rows, names, texts), texts);
                     && Asks(c, rows, request.user.value, texts, faults) && !faults.saveFails
                     && AllCanonical(c, texts) && reply.Some? && Fits(reply.value, texts))
            && (response.Done? ==>
                  var texts := Deduped(request.ids.value);
                  var reply := provider(FactsFor(c, rows, names, texts), texts);
                  reply.Some? && response.summary == reply.value.(eventIds := texts))
  {
    if request.user.Some? && request.ids.Some? {
      AnswerExactly(c, rows, names, request.user.value, Deduped(request.ids.value), provider, faults);
    }
  }

  /**
   Saving fails exactly when the provider was asked and its answer fits, and then the statement fails or an own event
   was named by a text other than its canonical id.
   */
  lemma SavingFailsExactly(c: Codec, rows: seq<Event>, names: map<nat, string>, request: Request, provider: Provider,
                           faults: Faults)
    requires Lawful(c)
    ensures Outcome(c, rows, names, request, provider, faults) == SaveFailed <==>
            && request.user.Some? && request.ids.Some?
            && var texts := Deduped(request.ids.value);
               var reply := provider(FactsFor(c, rows, names, texts), IdsFor(c, texts));
               && Asks(c, rows, request.user.value, texts, faults)
               && reply.Some? && Fits(reply.value, IdsFor(c, texts)) && (faults.saveFails || !AllCanonical(c, texts))
  {
    if request.user.Some? && request.ids.Some? {
      AnswerExactly(c, rows, names, request.user.value, Deduped(request.ids.value), provider, faults);
    }
  }

  /** The ids passed on are all parseable exactly when all texts are canonical, and are then the texts themselves. */
  lemma IdsAreCanonical(c: Codec, texts: seq<string>)
    requires Lawful(c)
    ensures AllParse(c, IdsFor(c, texts)) <==> AllCanonical(c, texts)
    ensures AllCanonical(c, texts) ==> IdsFor(c, texts) == texts
    ensures AllCanonical(c, texts) ==> AllParse(c, texts)
  {
    var ids := IdsFor(c, texts);
    if AllParse(c, ids) {
      forall i | 0 <= i < |texts|
        ensures Canonical(c, texts[i])
      {
        assert c.parse(ids[i]).Some?;
      }
    }
  }

  // ----- An own event under another spelling of its id -----

  predicate AllSmall(text: string) {
    forall i :: 0 <= i < |text| ==> text[i] == 'a'
  }

  /** Row 0 is written a and also read from A, row 1 is written aa, and so on. */
  function Spellings(): Codec {
    Codec(text => if text == "A" then Some(0) else if |text| > 0 && AllSmall(text) then Some(|text| - 1) else None,
          (id: nat) => seq(id + 1, _ => 'a'))
  }

  /** A provider whose answer always fits. */
  function Agreeable(): Provider {
    (facts: seq<Fact>, ids: seq<string>) => Some(Summary("title", ["bullet"], "low", Some([]), ids))
  }

  const NO_FAULTS := Faults(false, false, false)

  /** User 7 has one event. */
  function OneRow(): seq<Event> {
    [NewEvent(CreateInput(7, "key", "type", NullPayload), 0)]
  }

  lemma SpellingsLawful()
    ensures Lawful(Spellings())
  {
    forall id: nat
      ensures Spellings().parse(Spellings().render(id)) == Some(id)
    {
      assert Spellings().render(id)[0] == 'a';
    }
  }

  lemma UpperCaseNamesOwnRow()
    ensures Deduped(["A"]) == ["A"] && NamesOwnRows(Spellings(), OneRow(), 7, ["A"])
    ensures !AllCanonical(Spellings(), ["A"])
  {
    assert Deduped([]) == [] && ["A"][..0] == [];
    assert !Canonical(Spellings(), ["A"][0]) by {
      assert Spellings().render(0)[0] == 'a';
    }
  }

  /**
   One own event, asked for in upper case: the count check passes, the provider's answer fits, no statement fails of
   itself, and the summary cannot be saved.
   */
  lemma UpperCaseIdIsNotSaved(names: map<nat, string>)
    ensures var request := Request(Some(7), Some(["A"]));
            && Lawful(Spellings()) && Asks(Spellings(), OneRow(), 7, Deduped(["A"]), NO_FAULTS)
            && Outcome(Spellings(), OneRow(), names, request, Agreeable(), NO_FAULTS) == SaveFailed
  {
    SpellingsLawful();
    UpperCaseNamesOwnRow();
    SavingFailsExactly(Spellings(), OneRow(), names, Request(Some(7), Some(["A"])), Agreeable(), NO_FAULTS);
  }
}
