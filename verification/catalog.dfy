/** The watch catalog behind the watch handlers: create and update check the
    required fields and keep watch names unique, delete removes one watch,
    and search filters by a case-insensitive keyword. */
module Catalog {
  import opened Common

  /** A stored watch. The handlers also demand a `brand`, but the watch
      document has no such field, so it is checked and then not kept.
      Fields the handlers do not check are stored as the request gave them. */
  datatype Watch = Watch(
    name: string,
    price: int,
    reference: Option<string>,
    description: Option<string>,
    quantity: Option<int>)

  datatype WatchBody = WatchBody(
    name: Option<string>,
    brand: Option<string>,
    price: Option<int>,
    reference: Option<string>,
    description: Option<string>,
    quantity: Option<int>)

  /** Watches keyed by their id. */
  type Catalog = map<Id, Watch>

  /** The fields create and update insist on, in the order they are reported. */
  const Required: seq<string> := ["name", "brand", "price"]

  function Rank(field: string): int {
    if field == "name" then 0 else if field == "brand" then 1 else 2
  }

  /** The required fields a body lacks, in the order of `Required`. */
  function MissingRequired(body: WatchBody): (r: seq<string>)
    ensures forall f :: f in r ==> f in Required
    ensures "name" in r <==> !TruthyString(body.name)
    ensures "brand" in r <==> !TruthyString(body.brand)
    ensures "price" in r <==> !TruthyNumber(body.price)
    ensures forall i, j :: 0 <= i < j < |r| ==> Rank(r[i]) < Rank(r[j])
  {
    (if TruthyString(body.name) then [] else ["name"])
    + (if TruthyString(body.brand) then [] else ["brand"])
    + (if TruthyNumber(body.price) then [] else ["price"])
  }

  predicate Complete(body: WatchBody) {
    TruthyString(body.name) && TruthyString(body.brand) && TruthyNumber(body.price)
  }

  /** A watch other than `except` already carries `name`. */
  predicate NameTaken(catalog: Catalog, name: string, except: Option<Id>) {
    exists w :: w in catalog && except != Some(w) && catalog[w].name == name
  }

  /** No two watches share a name. */
  predicate UniqueNames(catalog: Catalog) {
    forall a, b :: a in catalog && b in catalog && catalog[a].name == catalog[b].name ==> a == b
  }

  /** `POST /watches`, with `id` the identifier the database assigns. */
  function CreateWatch(catalog: Catalog, id: Id, body: WatchBody): (t: Transition<Catalog, Watch>)
    ensures !Complete(body) ==> t == Transition(catalog, Err(BadRequest(MissingFields(MissingRequired(body)))))
    ensures Complete(body) && NameTaken(catalog, body.name.value, None) ==>
      t == Transition(catalog, Err(BadRequest(DuplicateName)))
    ensures t.result.Ok? <==> Complete(body) && !NameTaken(catalog, body.name.value, None) && id !in catalog
    ensures t.result.Ok? ==>
      && t.result.value == Watch(body.name.value, body.price.value, body.reference, body.description, body.quantity)
      && t.next.Keys == catalog.Keys + {id}
      && t.next[id] == t.result.value
      && (forall w :: w in catalog ==> t.next[w] == catalog[w])
    ensures t.result.Err? ==> t.next == catalog
    ensures UniqueNames(catalog) ==> UniqueNames(t.next)
  {
    var missing := MissingRequired(body);
    if |missing| > 0 then Transition(catalog, Err(BadRequest(MissingFields(missing))))
    else if NameTaken(catalog, body.name.value, None) then Transition(catalog, Err(BadRequest(DuplicateName)))
    else if id in catalog then Transition(catalog, Err(BadRequest(DuplicateKey)))
    else
      var watch := Watch(body.name.value, body.price.value, body.reference, body.description, body.quantity);
      Transition(catalog[id := watch], Ok(watch))
  }

  /** `PUT /watches/:id`. The name check (against every other watch) comes
      before the lookup, so a clash answers 400 even for an unknown id. */
  function UpdateWatch(catalog: Catalog, id: Id, body: WatchBody): (t: Transition<Catalog, Watch>)
    ensures !Complete(body) ==> t == Transition(catalog, Err(BadRequest(MissingFields(MissingRequired(body)))))
    ensures Complete(body) && NameTaken(catalog, body.name.value, Some(id)) ==>
      t == Transition(catalog, Err(BadRequest(DuplicateName)))
    ensures Complete(body) && !NameTaken(catalog, body.name.value, Some(id)) && id !in catalog ==>
      t == Transition(catalog, Err(NotFound))
    ensures t.result.Ok? <==> Complete(body) && !NameTaken(catalog, body.name.value, Some(id)) && id in catalog
    ensures t.result.Ok? ==>
      && t.result.value.name == body.name.value
      && t.result.value.price == body.price.value
      && t.result.value.reference == (if body.reference.Some? then body.reference else catalog[id].reference)
      && t.result.value.description == (if body.description.Some? then body.description else catalog[id].description)
      && t.result.value.quantity == (if body.quantity.Some? then body.quantity else catalog[id].quantity)
      && t.next.Keys == catalog.Keys
      && t.next[id] == t.result.value
      && (forall w :: w in catalog && w != id ==> t.next[w] == catalog[w])
    ensures t.result.Err? ==> t.next == catalog
    ensures UniqueNames(catalog) ==> UniqueNames(t.next)
  {
    var missing := MissingRequired(body);
    if |missing| > 0 then Transition(catalog, Err(BadRequest(MissingFields(missing))))
    else if NameTaken(catalog, body.name.value, Some(id)) then Transition(catalog, Err(BadRequest(DuplicateName)))
    else if id !in catalog then Transition(catalog, Err(NotFound))
    else
      var current := catalog[id];
      // a partial update: a field the body carries replaces the stored one
      var watch := Watch(body.name.value, body.price.value,
                         if body.reference.Some? then body.reference else current.reference,
                         if body.description.Some? then body.description else current.description,
                         if body.quantity.Some? then body.quantity else current.quantity);
      Transition(catalog[id := watch], Ok(watch))
  }

  /** A watch may keep its own name: resubmitting it is not a clash. */
  lemma UpdateWatchKeepsOwnName(catalog: Catalog, id: Id, body: WatchBody)
    requires UniqueNames(catalog) && id in catalog && Complete(body)
    requires body.name.value == catalog[id].name
    ensures UpdateWatch(catalog, id, body).result.Ok?
  {
  }

  /** `DELETE /watches/:id`. */
  function DeleteWatch(catalog: Catalog, id: Id): (t: Transition<Catalog, ()>)
    ensures id !in catalog ==> t == Transition(catalog, Err(NotFound))
    ensures id in catalog ==> t.result.Ok?
    ensures t.next.Keys == catalog.Keys - {id}
    ensures forall w :: w in t.next ==> t.next[w] == catalog[w]
    ensures UniqueNames(catalog) ==> UniqueNames(t.next)
  {
    if id !in catalog then Transition(catalog, Err(NotFound))
    else Transition(catalog - {id}, Ok(()))
  }

  // ---------------------------------------------------------------------
  // searchWatches

  /** ASCII lower-casing of one character. */
  function LowerChar(c: char): char {
    if 'A' <= c <= 'Z' then (c as int + 32) as char else c
  }

  function Lower(s: string): (r: string)
    ensures |r| == |s|
    ensures forall i :: 0 <= i < |s| ==> r[i] == LowerChar(s[i])
  {
    if |s| == 0 then "" else [LowerChar(s[0])] + Lower(s[1..])
  }

  /** `keyword` occurs in `s` at position `i`, ignoring case. */
  predicate MatchesAt(s: string, keyword: string, i: int) {
    0 <= i && i + |keyword| <= |s| && Lower(s[i..i + |keyword|]) == Lower(keyword)
  }

  /** `keyword` occurs somewhere in `s`, ignoring case. */
  predicate ContainsIgnoringCase(s: string, keyword: string) {
    exists i :: 0 <= i <= |s| - |keyword| && MatchesAt(s, keyword, i)
  }

  predicate FieldMatches(field: Option<string>, keyword: string) {
    field.Some? && ContainsIgnoringCase(field.value, keyword)
  }

  /** The keyword occurs in the watch's name, reference or description. */
  predicate Matches(w: Watch, keyword: string) {
    ContainsIgnoringCase(w.name, keyword) || FieldMatches(w.reference, keyword) || FieldMatches(w.description, keyword)
  }

  /** `GET /watches/search?keyword=...`: without a keyword (absent or empty)
      the whole catalog, otherwise exactly the watches that match it. */
  function Search(catalog: Catalog, keyword: Option<string>): (r: Catalog)
    ensures !TruthyString(keyword) ==> r == catalog
    ensures TruthyString(keyword) ==>
      forall w :: w in r <==> w in catalog && Matches(catalog[w], keyword.value)
    ensures forall w :: w in r ==> w in catalog && r[w] == catalog[w]
  {
    if !TruthyString(keyword) then catalog
    else map w | w in catalog && Matches(catalog[w], keyword.value) :: catalog[w]
  }

  lemma {:induction false} LowerIdempotent(s: string)
    ensures Lower(Lower(s)) == Lower(s)
  {
  }

  /** The characters that make a MongoDB regular expression more than
      literal text. */
  const RegexSpecial: set<char> := {'\\', '^', '$', '.', '|', '?', '*', '+', '(', ')', '[', ']', '{', '}'}

  /** A keyword the regular-expression search reads as literal text, which
      is where the substring match above agrees with it. */
  predicate Literal(keyword: string) {
    forall i :: 0 <= i < |keyword| ==> keyword[i] !in RegexSpecial
  }

  /** Only the lower-cased keyword matters to a match. */
  lemma MatchesLowerKeyword(w: Watch, keyword: string)
    requires Literal(keyword)
    ensures Matches(w, keyword) <==> Matches(w, Lower(keyword))
  {
    LowerIdempotent(keyword);
    var k := Lower(keyword);
    assert forall s: string, i :: MatchesAt(s, keyword, i) <==> MatchesAt(s, k, i);
  }

  /** Searching is insensitive to the case of the keyword. */
  lemma SearchIgnoresKeywordCase(catalog: Catalog, keyword: string)
    requires Literal(keyword)
    ensures Search(catalog, Some(keyword)) == Search(catalog, Some(Lower(keyword)))
  {
    forall w | w in catalog
      ensures Matches(catalog[w], keyword) <==> Matches(catalog[w], Lower(keyword))
    {
      MatchesLowerKeyword(catalog[w], keyword);
    }
  }

  /** A watch is always found by its own full name. */
  lemma SearchFindsByName(catalog: Catalog, id: Id)
    requires id in catalog && catalog[id].name != "" && Literal(catalog[id].name)
    ensures id in Search(catalog, Some(catalog[id].name))
  {
    var name := catalog[id].name;
    assert name[0..|name|] == name;
    assert MatchesAt(name, name, 0);
  }
}
