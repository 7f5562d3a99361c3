/** The listing half of directory/handler.go and the default filter of directory/resolver.go. */
module Directory {
  import opened Prelude
  import opened Sequences
  import opened A2A
  import opened Decimal
  import opened Cursor

  datatype Response<T> =
    | BadCursor
    | BadLimit
    | ServerError
    | Page(cards: seq<T>, next: string)

  /** The listing operations of a registry without native queries; None is a storage failure. */
  datatype Registry<!T> =
    | Lister(listing: Option<seq<T>>)
    | Filterer(listing: Option<seq<T>>, filter: string -> Option<seq<T>>)

  /** The unpaged answer to a query: everything, or what the filter keeps. */
  function Selected<T>(registry: Registry<T>, resolver: (string, seq<T>) -> seq<T>, query: string): Option<seq<T>> {
    if query == "" then registry.listing
    else if registry.Filterer? then registry.filter(query)
    else
      match registry.listing
      case None => None
      case Some(cards) => Some(resolver(query, cards))
  }

  /** A limit parameter: absent, or a positive integer. */
  datatype Limit = Unlimited | AtMost(n: int) | Malformed

  function ParseLimit(text: string): Limit {
    if text == "" then Unlimited
    else
      match Atoi(text)
      case None => Malformed
      case Some(n) => if n <= 0 then Malformed else AtMost(n)
  }

  /** Where the page that starts at `start` ends. */
  function PageEnd(limit: Limit, start: int, size: int): int
    requires limit != Malformed
  {
    if limit == Unlimited then size else Min(size, start + limit.n)
  }

  /** What one request must answer, in terms of the unpaged listing. */
  function Answer<T>(selected: Option<seq<T>>, limitText: string, cursor: string): Response<T> {
    var limit := ParseLimit(limitText);
    match DecodeCursor(cursor)
    case Err(_) => BadCursor
    case Ok(offset) =>
      if limit == Malformed then BadLimit
      else
        match selected
        case None => ServerError
        case Some(cards) =>
          DecodedOffsetIsNatural(cursor);
          var start := Min(offset, |cards|);
          var end := PageEnd(limit, start, |cards|);
          Page(cards[start..end], if end == |cards| then "" else EncodeCursor(end))
  }

  /** The cursor-and-limit path of ServeHTTP, reassigning the offset, the cards and the token as it goes. */
  method ServeHTTP<T>(registry: Registry<T>, resolver: (string, seq<T>) -> seq<T>,
                      query: string, limitText: string, cursor: string)
    returns (response: Response<T>)
    ensures response == Answer(Selected(registry, resolver, query), limitText, cursor)
  {
    hide DecodeCursor, EncodeCursor, Atoi;
    var decoded := DecodeCursor(cursor);
    if decoded.Err? {
      return BadCursor;
    }
    var offset := decoded.value;
    var limit := 0;
    var hasLimit := false;
    if limitText != "" {
      hasLimit := true;
      var parsed := Atoi(limitText);
      if parsed.None? || parsed.value <= 0 {
        return BadLimit;
      }
      limit := parsed.value;
    }
    var listed := registry.listing;
    if query != "" {
      if registry.Filterer? {
        listed := registry.filter(query);
      } else if listed.Some? {
        listed := Some(resolver(query, listed.value));
      }
    }
    if listed.None? {
      return ServerError;
    }
    var cards := listed.value;
    DecodedOffsetIsNatural(cursor);
    if offset > |cards| {
      offset := |cards|;
    }
    cards := cards[offset..];
    var next := "";
    if hasLimit && |cards| > limit {
      assert cards[..limit] == listed.value[offset..offset + limit];
      cards := cards[..limit];
      next := EncodeCursor(offset + limit);
    }
    return Page(cards, next);
  }

  /** A query goes to the registry's own filter if it has one, and else to the resolver, over the whole listing;
      without a query the listing is the answer. A storage failure stays one. */
  lemma QueryGoesToFilterOrResolver<T>(registry: Registry<T>, resolver: (string, seq<T>) -> seq<T>, query: string)
    ensures query == "" ==> Selected(registry, resolver, query) == registry.listing
    ensures query != "" && registry.Filterer? ==> Selected(registry, resolver, query) == registry.filter(query)
    ensures query != "" && registry.Lister? ==>
              && (Selected(registry, resolver, query) == None <==> registry.listing == None)
              && (registry.listing.Some? ==>
                    Selected(registry, resolver, query) == Some(resolver(query, registry.listing.value)))
  {
  }

  /** What is wrong with a request is told in this order: its cursor, its limit, the storage; and a request without a
      limit is answered with everything from its offset on. */
  lemma RequestIsAnswered<T>(selected: Option<seq<T>>, limitText: string, cursor: string)
    ensures var response := Answer(selected, limitText, cursor);
            var cursorOk := DecodeCursor(cursor).Ok?;
            var limitOk := limitText == "" || (Atoi(limitText).Some? && Atoi(limitText).value > 0);
            && (response == BadCursor <==> !cursorOk)
            && (response == BadLimit <==> cursorOk && !limitOk)
            && (response == ServerError <==> cursorOk && limitOk && selected == None)
            && (response.Page? <==> cursorOk && limitOk && selected.Some?)
            && (response.Page? && limitText == "" ==>
                  var offset := DecodeCursor(cursor).value;
                  && 0 <= offset
                  && response == Page(if offset <= |selected.value| then selected.value[offset..] else [], ""))
  {
    hide DecodeCursor, Atoi, EncodeCursor;
    DecodedOffsetIsNatural(cursor);
  }

  /** The next token is the cursor of the page's end, and is absent exactly on the last page. */
  lemma PageAdvances<T>(cards: seq<T>, limit: int, cursor: string)
    requires |cards| <= MAX_INT && 0 < limit <= MAX_INT
    requires DecodeCursor(cursor).Ok?
    ensures var start := Min(DecodeCursor(cursor).value, |cards|);
            var end := Min(|cards|, start + limit);
            var page := Answer(Some(cards), PrintInt(limit), cursor);
            && 0 <= start <= end
            && page.Page? && page.cards == cards[start..end]
            && (page.next == "" <==> end == |cards|)
            && (page.next != "" ==> DecodeCursor(page.next) == Ok(end) && start < end < |cards|)
  {
    AtoiPrintInt(limit);
    DecodedOffsetIsNatural(cursor);
    assert PrintInt(limit) != "";
    var end := Min(|cards|, Min(DecodeCursor(cursor).value, |cards|) + limit);
    CursorRoundTrip(end);
  }

  /** A client that follows next tokens, asking for `limits(i)` cards in its i-th request. */
  ghost function Walk<T>(cards: seq<T>, limits: nat -> int, i: nat, cursor: string): (pages: seq<seq<T>>)
    requires |cards| <= MAX_INT && forall j: nat :: 0 < limits(j) <= MAX_INT
    requires DecodeCursor(cursor).Ok?
    decreases |cards| - Min(DecodeCursor(cursor).value, |cards|)
  {
    PageAdvances(cards, limits(i), cursor);
    var page := Answer(Some(cards), PrintInt(limits(i)), cursor);
    if page.next == "" then [page.cards]
    else [page.cards] + Walk(cards, limits, i + 1, page.next)
  }

  /** Following tokens from any valid cursor yields, in order and without gap or repetition, what lies behind it. */
  lemma {:induction false} WalkFrom<T>(cards: seq<T>, limits: nat -> int, i: nat, cursor: string)
    requires |cards| <= MAX_INT && forall j: nat :: 0 < limits(j) <= MAX_INT
    requires DecodeCursor(cursor).Ok?
    ensures 0 <= Min(DecodeCursor(cursor).value, |cards|)
    ensures Flatten(Walk(cards, limits, i, cursor)) == cards[Min(DecodeCursor(cursor).value, |cards|)..]
    decreases |cards| - Min(DecodeCursor(cursor).value, |cards|)
  {
    hide DecodeCursor, Answer;
    PageAdvances(cards, limits(i), cursor);
    var page := Answer(Some(cards), PrintInt(limits(i)), cursor);
    if page.next == "" {
      assert Flatten([page.cards]) == page.cards + Flatten([page.cards][1..]);
    } else {
      var rest := Walk(cards, limits, i + 1, page.next);
      assert ([page.cards] + rest)[1..] == rest;
      WalkFrom(cards, limits, i + 1, page.next);
    }
  }

  /** Pagination reassembles the listing, whatever positive limits the client uses. */
  lemma PagesReassembleListing<T>(cards: seq<T>, limits: nat -> int)
    requires |cards| <= MAX_INT && forall j: nat :: 0 < limits(j) <= MAX_INT
    ensures Flatten(Walk(cards, limits, 0, "")) == cards
  {
    WalkFrom(cards, limits, 0, "");
  }

  function Constant(limit: int): nat -> int {
    _ => limit
  }

  lemma {:induction false} WalkLength<T>(cards: seq<T>, limit: int, i: nat, cursor: string)
    requires |cards| <= MAX_INT && 0 < limit <= MAX_INT
    requires DecodeCursor(cursor).Ok?
    ensures var left := |cards| - Min(DecodeCursor(cursor).value, |cards|);
            var requests := |Walk(cards, Constant(limit), i, cursor)|;
            if left == 0 then requests == 1 else (requests - 1) * limit < left <= requests * limit
    decreases |cards| - Min(DecodeCursor(cursor).value, |cards|)
  {
    hide DecodeCursor, Answer;
    PageAdvances(cards, limit, cursor);
    var page := Answer(Some(cards), PrintInt(limit), cursor);
    if page.next == "" {
    } else {
      WalkLength(cards, limit, i + 1, page.next);
      var k := |Walk(cards, Constant(limit), i + 1, page.next)|;
      assert (k + 1) * limit == k * limit + limit;
    }
  }

  /** With one fixed limit a full walk takes exactly max(1, ceil(size / limit)) requests. */
  lemma RequestCount<T>(cards: seq<T>, limit: int)
    requires |cards| <= MAX_INT && 0 < limit <= MAX_INT
    ensures var requests := |Walk(cards, Constant(limit), 0, "")|;
            if cards == [] then requests == 1 else (requests - 1) * limit < |cards| <= requests * limit
  {
    WalkLength(cards, limit, 0, "");
  }

  // -------- directory/resolver.go --------

  predicate OccursAt(text: string, part: string, i: nat) {
    i + |part| <= |text| && text[i..i + |part|] == part
  }

  /** strings.Contains. */
  ghost predicate Contains(text: string, part: string) {
    exists i :: OccursAt(text, part, i)
  }

  /** Some name, description or skill tag, lower-cased, contains the text. */
  ghost predicate Mentions(lower: string -> string, card: Card, part: string) {
    || Contains(lower(card.name), part)
    || Contains(lower(card.description), part)
    || exists skill <- card.skills, tag <- skill.tags :: Contains(lower(tag), part)
  }

  function ContainsFrom(text: string, part: string, i: nat): (found: bool)
    ensures found <==> exists j :: i <= j && OccursAt(text, part, j)
    decreases |text| - i
  {
    if i + |part| > |text| then false
    else if OccursAt(text, part, i) then true
    else ContainsFrom(text, part, i + 1)
  }

  /** The nested search of matchesCard; `lower` stands for strings.ToLower. */
  method MatchesCard(lower: string -> string, part: string, card: Card) returns (found: bool)
    ensures found <==> Mentions(lower, card, part)
  {
    if ContainsFrom(lower(card.name), part, 0) {
      return true;
    }
    if ContainsFrom(lower(card.description), part, 0) {
      return true;
    }
    for i := 0 to |card.skills|
      invariant forall skill <- card.skills[..i], tag <- skill.tags :: !Contains(lower(tag), part)
    {
      var tags := card.skills[i].tags;
      for j := 0 to |tags|
        invariant forall tag <- tags[..j] :: !Contains(lower(tag), part)
      {
        if ContainsFrom(lower(tags[j]), part, 0) {
          assert card.skills[i] in card.skills && tags[j] in card.skills[i].tags;
          return true;
        }
      }
    }
    return false;
  }

  /** The texts a card can be found by. */
  predicate IsTextOf(card: Card, text: string) {
    text == card.name || text == card.description || exists skill <- card.skills :: text in skill.tags
  }

  /** A card is found by a text exactly if its name, its description or one of its tags contains that text, both sides
      lowered: so by each of these itself. */
  lemma CardIsFoundByItsTexts(lower: string -> string, card: Card, part: string)
    ensures Mentions(lower, card, part) <==> exists text :: IsTextOf(card, text) && Contains(lower(text), part)
    ensures forall text | IsTextOf(card, text) :: Mentions(lower, card, lower(text))
  {
    hide Contains;
    if Mentions(lower, card, part) {
      var text := SomeText(lower, card, part);
    }
    forall text | IsTextOf(card, text) ensures Contains(lower(text), lower(text)) {
      ContainsIsInfix(lower(text), lower(text), [], []);
    }
  }

  /** A text contains what stands somewhere in it, and nothing else. */
  lemma ContainsIsInfix(text: string, part: string, before: string, behind: string)
    ensures text == before + part + behind ==> Contains(text, part)
    ensures Contains(text, part) ==> exists x, y :: text == x + part + y
  {
    if text == before + part + behind {
      assert OccursAt(text, part, |before|);
    }
    if Contains(text, part) {
      var i: nat :| OccursAt(text, part, i);
      assert text == text[..i] + part + text[i + |part|..];
    }
  }

  lemma SomeText(lower: string -> string, card: Card, part: string) returns (text: string)
    requires Mentions(lower, card, part)
    ensures IsTextOf(card, text) && Contains(lower(text), part)
  {
    hide Contains;
    if Contains(lower(card.name), part) {
      text := card.name;
    } else if Contains(lower(card.description), part) {
      text := card.description;
    } else {
      var skill, tag :| skill in card.skills && tag in skill.tags && Contains(lower(tag), part);
      text := tag;
    }
  }

  ghost function Mentioning(lower: string -> string, part: string): Card -> bool {
    card => Mentions(lower, card, part)
  }

  /** DefaultResolver.Resolve keeps exactly the matching cards, in listing order. */
  method Resolve(lower: string -> string, filter: string, cards: seq<Card>) returns (results: seq<Card>)
    ensures results == Filter(cards, Mentioning(lower, lower(filter)))
  {
    var part := lower(filter);
    results := [];
    for i := 0 to |cards|
      invariant results == Filter(cards[..i], Mentioning(lower, part))
    {
      var matches := MatchesCard(lower, part, cards[i]);
      FilterSnoc(cards, i, Mentioning(lower, part));
      if matches {
        results := results + [cards[i]];
      }
    }
    assert cards[..|cards|] == cards;
  }
}
