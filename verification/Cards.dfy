/** The agent card that connecting fetches over the network (internal/tool/tool_connect.go,
    registry/agent_registry.go). */
module Cards {
  import opened Prelude
  import opened Sequences
  import opened A2A
  import opened Stores
  import opened Gateway

  /** A card on its way: for which alias, and from which URL. */
  datatype Fetch = Fetch(alias: string, url: string)

  /** The registry; `sources` says from which URL each stored card came. */
  datatype Book = Book(entries: map<string, Agent>, sources: map<string, string>, fetches: seq<Fetch>)

  /** Connecting registers the agent, then waits for its card without a lock; anything may come between. */
  datatype Event =
    | Register(input: ConnectInput)
    | CardArrives(fetch: nat, card: Option<Card>)
    | Remove(alias: string)

  function Happens(b: Book, e: Event): Book {
    match e
    case Register(input) =>
      Book(b.entries[input.alias := Agent(input.url, input.headers, input.pingEndpoint, None)],
           b.sources - {input.alias}, b.fetches + [Fetch(input.alias, input.url)])
    case CardArrives(k, card) =>
      if k >= |b.fetches| || card.None? || b.fetches[k].alias !in b.entries then b
      else
        var alias := b.fetches[k].alias;
        b.(entries := b.entries[alias := b.entries[alias].(card := card)],
           sources := b.sources[alias := b.fetches[k].url])
    case Remove(alias) => b.(entries := b.entries - {alias}, sources := b.sources - {alias})
  }

  function AfterEvents(events: seq<Event>): Book {
    if events == [] then Book(map[], map[], []) else Happens(AfterEvents(events[..|events| - 1]), events[|events| - 1])
  }

  /** The registry object performs these events; a card that could not be fetched is not stored. */
  method Perform(registry: AgentRegistry, fetches: seq<Fetch>, e: Event, ghost b: Book)
    requires registry.entries == b.entries && fetches == b.fetches
    modifies registry
    ensures registry.entries == Happens(b, e).entries
  {
    match e {
      case Register(input) =>
        var updated := registry.Connect(input.alias, input.url, input.headers, input.pingEndpoint);
      case CardArrives(k, card) =>
        if k < |fetches| && card.Some? {
          var found := registry.SetCard(fetches[k].alias, card.value);
        }
      case Remove(alias) =>
        var removed := registry.Disconnect(alias);
    }
  }

  /** Connecting without anything in between stores the card at once. */
  lemma ConnectIsRegisterThenCard(b: Book, w: World, input: ConnectInput, default: RateLimit, card: Option<Card>,
                                  threshold: int)
    requires b.entries == w.registry
    ensures Happens(Happens(b, Register(input)), CardArrives(|b.fetches|, card)).entries ==
            Connected(w, input, default, card, threshold).registry
  {
    var agent := Agent(input.url, input.headers, input.pingEndpoint, None);
    assert b.entries[input.alias := agent][input.alias := agent.(card := card)] ==
           b.entries[input.alias := agent.(card := card)];
  }

  /** Every stored card came from the URL its agent is registered with. */
  ghost predicate CardsBelong(b: Book) {
    forall a | a in b.entries && b.entries[a].card.Some? :: a in b.sources && b.sources[a] == b.entries[a].url
  }

  /** A card that arrives finds its alias gone, or still registered with the URL it was fetched from. */
  predicate ArrivesInTime(b: Book, e: Event) {
    e.CardArrives? && e.fetch < |b.fetches| && e.card.Some? && b.fetches[e.fetch].alias in b.entries ==>
      b.entries[b.fetches[e.fetch].alias].url == b.fetches[e.fetch].url
  }

  lemma EventKeepsCardsIff(b: Book, e: Event)
    requires CardsBelong(b)
    ensures CardsBelong(Happens(b, e)) <==> ArrivesInTime(b, e)
  {
    if e.CardArrives? && e.fetch < |b.fetches| && e.card.Some? && b.fetches[e.fetch].alias in b.entries {
      var alias := b.fetches[e.fetch].alias;
      assert Happens(b, e).entries[alias].card.Some? && Happens(b, e).sources[alias] == b.fetches[e.fetch].url;
    }
  }

  ghost function BelongAfter(): seq<Event> -> bool {
    events => CardsBelong(AfterEvents(events))
  }

  ghost function InTimeAfter(): (seq<Event>, Event) -> bool {
    (before, e) => ArrivesInTime(AfterEvents(before), e)
  }

  /** However connections interleave: at every moment each stored card came from the URL its agent is registered
      with, if and only if no card arrives for an alias that was moved to another URL while it was fetched. */
  lemma CardsBelongIffInTime(events: seq<Event>)
    ensures Always(events, BelongAfter()) <==> EachFits(events, InTimeAfter())
  {
    assert BelongAfter()([]);
    hide Happens, CardsBelong, ArrivesInTime, AfterEvents, Always, EachFits;
    forall i | 0 <= i < |events| && BelongAfter()(events[..i])
      ensures BelongAfter()(events[..i + 1]) <==> InTimeAfter()(events[..i], events[i])
    {
      AfterOneMore(events, i);
      EventKeepsCardsIff(AfterEvents(events[..i]), events[i]);
    }
    AlwaysIffEachFits(events, BelongAfter(), InTimeAfter());
  }

  lemma AfterOneMore(events: seq<Event>, i: nat)
    requires i < |events|
    ensures AfterEvents(events[..i + 1]) == Happens(AfterEvents(events[..i]), events[i])
  {
    assert events[..i + 1][..i] == events[..i];
  }

  /** The run that goes wrong: the alias is connected to a second URL while the card of the first is on its way, and the
      second has none. */
  lemma LateCardIsMisfiled(first: ConnectInput, second: ConnectInput, card: Card)
    requires first.alias == second.alias && first.url != second.url
    ensures var b := AfterEvents([Register(first), Register(second), CardArrives(1, None), CardArrives(0, Some(card))]);
            && first.alias in b.entries && b.entries[first.alias].url == second.url
            && b.entries[first.alias].card == Some(card)
            && first.alias in b.sources && b.sources[first.alias] == first.url
  {
    var events := [Register(first), Register(second), CardArrives(1, None), CardArrives(0, Some(card))];
    assert events[..0] == [];
    AfterOneMore(events, 0);
    AfterOneMore(events, 1);
    AfterOneMore(events, 2);
    AfterOneMore(events, 3);
    assert events[..4] == events;
  }
}
