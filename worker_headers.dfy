/**
 * The header map `check_route` builds from a route's stored headers
 * (worker/src/main.rs). Whether a name or a value is acceptable to the
 * HTTP library is decided by the library's parsers, which this model takes
 * as parameters: `nameOf` gives the canonical header name for a key, or
 * None when the key is not a valid header name, and `validValue` tells
 * whether a string is a valid header value.
 */
module WorkerHeaders {
  import opened Wrappers
  import opened JsonValue

  /** The name a valid value is stored under when its key is not a valid header name. */
  const FallbackName := "x-custom"

  type Entry = (string, Json)

  /**
   * The entries of the stored headers: those of a JSON object, none otherwise,
   * in the order the object's map iterates them. With serde_json's default
   * map (a `BTreeMap`) that order is by key, not the order the entries were
   * written in, so "later" below means later in key order; only the
   * `preserve_order` feature keeps the written order. The worker's crate
   * manifest is not part of this model.
   */
  function Entries(stored: Option<Json>): seq<Entry> {
    match stored
    case Some(Object(fields)) => fields
    case _ => []
  }

  /** An entry is applied when its value is a string that is a valid header value. */
  predicate Applies(e: Entry, validValue: string -> bool) {
    e.1.Str? && validValue(e.1.s)
  }

  function KeyFor(e: Entry, nameOf: string -> Option<string>): string {
    nameOf(e.0).GetOr(FallbackName)
  }

  /** The header map after the entries `es` have been inserted one by one, later entries overwriting. */
  function Inserted(es: seq<Entry>, nameOf: string -> Option<string>, validValue: string -> bool): map<string, string> {
    if es == [] then map[]
    else
      var last := es[|es| - 1];
      var before := Inserted(es[..|es| - 1], nameOf, validValue);
      if Applies(last, validValue) then before[KeyFor(last, nameOf) := last.1.s] else before
  }

  /**
   * The loop over the stored headers: only a JSON object contributes, and
   * each applied entry is inserted under its canonical name or `x-custom`.
   */
  method BuildHeaders(stored: Option<Json>, nameOf: string -> Option<string>, validValue: string -> bool)
    returns (headers: map<string, string>)
    ensures headers == Inserted(Entries(stored), nameOf, validValue)
  {
    headers := map[];
    if stored.Some? && stored.value.Object? {
      var fields := stored.value.fields;
      var i := 0;
      while i < |fields|
        invariant 0 <= i <= |fields|
        invariant headers == Inserted(fields[..i], nameOf, validValue)
      {
        var (key, value) := fields[i];
        assert fields[..i + 1][..i] == fields[..i];
        if value.Str? && validValue(value.s) {
          var name := match nameOf(key) case Some(n) => n case None => FallbackName;
          headers := headers[name := value.s];
        }
        i := i + 1;
      }
      assert fields[..|fields|] == fields;
    }
  }

  /** A header is present exactly when some applied entry maps to its name. */
  lemma {:induction false} InsertedKeys(es: seq<Entry>, nameOf: string -> Option<string>, validValue: string -> bool, k: string)
    ensures k in Inserted(es, nameOf, validValue) <==>
      exists i | 0 <= i < |es| :: Applies(es[i], validValue) && KeyFor(es[i], nameOf) == k
  {
    if es != [] {
      var init := es[..|es| - 1];
      InsertedKeys(init, nameOf, validValue, k);
      if k in Inserted(es, nameOf, validValue) && k !in Inserted(init, nameOf, validValue) {
        assert Applies(es[|es| - 1], validValue) && KeyFor(es[|es| - 1], nameOf) == k;
      }
      if exists i | 0 <= i < |es| :: Applies(es[i], validValue) && KeyFor(es[i], nameOf) == k {
        var i :| 0 <= i < |es| && Applies(es[i], validValue) && KeyFor(es[i], nameOf) == k;
        if i < |es| - 1 {
          assert init[i] == es[i];
        }
      }
    }
  }

  /** The value stored under a name is that of the last applied entry mapping to that name. */
  lemma {:induction false} InsertedLastWins(es: seq<Entry>, nameOf: string -> Option<string>, validValue: string -> bool, i: nat)
    requires i < |es| && Applies(es[i], validValue)
    requires forall j | i < j < |es| :: !(Applies(es[j], validValue) && KeyFor(es[j], nameOf) == KeyFor(es[i], nameOf))
    ensures KeyFor(es[i], nameOf) in Inserted(es, nameOf, validValue)
    ensures Inserted(es, nameOf, validValue)[KeyFor(es[i], nameOf)] == es[i].1.s
  {
    if i < |es| - 1 {
      var init := es[..|es| - 1];
      assert init[i] == es[i];
      InsertedLastWins(init, nameOf, validValue, i);
    }
  }

  /** Entries that are not applied leave no trace in the map. */
  lemma {:induction false} NoStringNoHeader(es: seq<Entry>, nameOf: string -> Option<string>, validValue: string -> bool)
    requires forall i | 0 <= i < |es| :: !Applies(es[i], validValue)
    ensures Inserted(es, nameOf, validValue) == map[]
  {
    if es != [] {
      NoStringNoHeader(es[..|es| - 1], nameOf, validValue);
    }
  }

  /**
   * Two entries with invalid names both land on `x-custom`: the later one
   * overwrites the earlier one, and neither is dropped before that.
   */
  lemma InvalidNamesShareFallback(a: Entry, b: Entry, nameOf: string -> Option<string>, validValue: string -> bool)
    requires nameOf(a.0).None? && nameOf(b.0).None?
    requires Applies(a, validValue) && Applies(b, validValue)
    ensures Inserted([a, b], nameOf, validValue) == map[FallbackName := b.1.s]
    ensures Inserted([a], nameOf, validValue) == map[FallbackName := a.1.s]
  {
    assert [a][..0] == [];
    assert Inserted([a], nameOf, validValue) == map[FallbackName := a.1.s];
    assert [a, b][..1] == [a];
    assert KeyFor(b, nameOf) == FallbackName;
  }
}
