/** The per-alias maps of registry/: agents, contexts and rate limiters. Each method holds its lock throughout. */
module Stores {
  import opened Prelude
  import opened A2A

  type Headers = map<string, string>

  /** RegisteredAgent; the alias is its key in the registry. */
  datatype Agent = Agent(url: string, headers: Headers, pingEndpoint: string, card: Option<Card>)

  /** ResolveResult. */
  datatype Resolved = Resolved(url: string, headers: Headers, isAlias: bool, alias: string)

  class AgentRegistry {
    var entries: map<string, Agent>

    constructor ()
      ensures entries == map[]
    {
      entries := map[];
    }

    function Lookup(alias: string): (found: Option<Agent>)
      reads this
      ensures found.Some? <==> alias in entries
    {
      if alias in entries then Some(entries[alias]) else None
    }

    /** Replaces the whole entry, so a card fetched earlier is forgotten. */
    method Connect(alias: string, url: string, headers: Headers, pingEndpoint: string) returns (updated: bool)
      modifies this
      ensures updated <==> alias in old(entries)
      ensures entries == old(entries)[alias := Agent(url, headers, pingEndpoint, None)]
    {
      updated := alias in entries;
      entries := entries[alias := Agent(url, headers, pingEndpoint, None)];
    }

    method Disconnect(alias: string) returns (removed: Option<Agent>)
      modifies this
      ensures removed == old(Lookup(alias))
      ensures entries == old(entries) - {alias}
    {
      removed := Lookup(alias);
      if removed.Some? {
        entries := entries - {alias};
      }
    }

    method SetCard(alias: string, card: Card) returns (found: bool)
      modifies this
      ensures found <==> alias in old(entries)
      ensures entries == if found then old(entries)[alias := old(entries)[alias].(card := Some(card))] else old(entries)
    {
      found := alias in entries;
      if found {
        entries := entries[alias := entries[alias].(card := Some(card))];
      }
    }
  }

  class ContextStore {
    var contexts: map<string, string>

    /** The URL whose reply supplied each stored context. */
    ghost var origins: map<string, string>

    constructor ()
      ensures contexts == map[] && origins == map[]
    {
      contexts := map[];
      origins := map[];
    }

    function Get(alias: string): string
      reads this
    {
      if alias in contexts then contexts[alias] else ""
    }

    /** An empty context ID leaves the store as it is. */
    method Set(alias: string, contextId: string, ghost url: string)
      modifies this
      ensures contexts == Written(old(contexts), alias, contextId)
      ensures origins == if contextId == "" then old(origins) else old(origins)[alias := url]
    {
      if contextId == "" {
        return;
      }
      contexts := contexts[alias := contextId];
      origins := origins[alias := url];
    }

    method Delete(alias: string)
      modifies this
      ensures contexts == old(contexts) - {alias} && origins == old(origins) - {alias}
    {
      contexts := contexts - {alias};
      origins := origins - {alias};
    }
  }

  function Written(contexts: map<string, string>, alias: string, contextId: string): map<string, string> {
    if contextId == "" then contexts else contexts[alias := contextId]
  }

  /** What a reply leaves in the store: only agents addressed by alias have their context remembered. */
  function Remembered(contexts: map<string, string>, resolved: Resolved, agent: string, contextId: string)
    : map<string, string>
  {
    if resolved.isAlias then Written(contexts, agent, contextId) else contexts
  }

  function Attributed(origins: map<string, string>, resolved: Resolved, agent: string, contextId: string)
    : map<string, string>
  {
    if resolved.isAlias && contextId != "" then origins[agent := resolved.url] else origins
  }

  /** Only a context that is not empty is remembered, only for an agent addressed by alias, with the URL it was asked
      at, and nothing about any other. */
  lemma RemembersOneAlias(contexts: map<string, string>, origins: map<string, string>, resolved: Resolved,
                          agent: string, contextId: string)
    ensures var contexts' := Remembered(contexts, resolved, agent, contextId);
            var origins' := Attributed(origins, resolved, agent, contextId);
            if resolved.isAlias && contextId != "" then
              && agent in contexts' && contexts'[agent] == contextId && agent in origins' && origins'[agent] ==
                 resolved.url
              && contexts' - {agent} == contexts - {agent} && origins' - {agent} == origins - {agent}
            else contexts' == contexts && origins' == origins
  {
  }

  /** RateLimitConfig. */
  datatype RateLimit = RateLimit(rps: real, burst: int) {
    predicate Disabled() {
      rps <= 0.0 || burst <= 0
    }
  }

  class RateLimiterRegistry {
    var limiters: map<string, RateLimit>

    constructor ()
      ensures limiters == map[]
    {
      limiters := map[];
    }

    /** A disabled limit removes the limiter. */
    method Set(alias: string, limit: RateLimit)
      modifies this
      ensures limiters == if limit.Disabled() then old(limiters) - {alias} else old(limiters)[alias := limit]
    {
      if limit.rps <= 0.0 || limit.burst <= 0 {
        limiters := limiters - {alias};
        return;
      }
      limiters := limiters[alias := limit];
    }

    method Remove(alias: string)
      modifies this
      ensures limiters == old(limiters) - {alias}
    {
      limiters := limiters - {alias};
    }
  }
}
