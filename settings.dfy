// The persisted settings store of src/settings.ts: the default-fill of a stored record,
// the store that loads it, saves what it holds and reloads on `storage` events, and the
// default settings.

module Settings {
  import opened Common

  /** A JSON value as far as the fill can tell them apart: only `null` is special. Arrays
      and nested objects are `Other`. */
  datatype Value = Null | Bool(b: bool) | Number(n: int) | Str(s: string) | Other

  /** A parsed JSON object; a key that is absent reads as `undefined`. */
  type Record = map<string, Value>

  /** `value[key] === undefined || value[key] === null`. */
  predicate Missing(r: Record, key: string)
  {
    key !in r || r[key] == Null
  }

  /** The record after the fill has visited the keys `done` of the defaults: a visited key
      that was missing takes its default, every other key keeps its stored value. */
  function FilledOn(stored: Record, init: Record, done: set<string>): (r: Record)
    requires done <= init.Keys
    ensures r.Keys == stored.Keys + done
  {
    map k | k in stored.Keys + done :: if k in done && Missing(stored, k) then init[k] else stored[k]
  }

  /** The record once every key of the defaults has been visited. */
  function Filled(stored: Record, init: Record): Record
  {
    FilledOn(stored, init, init.Keys)
  }

  /** One pass of the `forEach` body: `value = { ...value, [key]: initValue[key] }` when the
      key is missing. */
  function FillKey(value: Record, init: Record, key: string): Record
    requires key in init
  {
    if Missing(value, key) then value[key := init[key]] else value
  }

  /** Visiting one more key extends the partial fill by that key. */
  lemma FillKeyStep(stored: Record, init: Record, done: set<string>, key: string)
    requires done <= init.Keys && key in init && key !in done
    ensures FillKey(FilledOn(stored, init, done), init, key) == FilledOn(stored, init, done + {key})
  {
    var v := FilledOn(stored, init, done);
    assert key in v ==> v[key] == stored[key];
    assert FillKey(v, init, key).Keys == FilledOn(stored, init, done + {key}).Keys;
  }

  /** The `Object.keys(initValue).forEach(...)` loop; the keys are visited in an order the
      model leaves open, and the result does not depend on it. */
  method Fill(stored: Record, init: Record) returns (value: Record)
    ensures value == Filled(stored, init)
  {
    value := stored;
    var todo := init.Keys;
    ghost var done: set<string> := {};
    FilledOnNone(stored, init);
    while todo != {}
      invariant done <= init.Keys && todo == init.Keys - done
      invariant value == FilledOn(stored, init, done)
      decreases |todo|
    {
      var key :| key in todo;
      FillKeyStep(stored, init, done, key);
      Visit(init.Keys, done, key);
      value := FillKey(value, init, key);
      done := done + {key};
      todo := todo - {key};
    }
    assert done == init.Keys;
  }

  lemma Visit(all: set<string>, done: set<string>, key: string)
    requires done <= all && key in all - done
    ensures all - done - {key} == all - (done + {key}) && |all - done - {key}| < |all - done|
  {
  }

  lemma FilledOnNone(stored: Record, init: Record)
    ensures FilledOn(stored, init, {}) == stored
  {
  }

  /** No default is `null`. */
  predicate NoNulls(init: Record)
  {
    forall k :: k in init ==> init[k] != Null
  }

  /** After the fill, every key of the defaults is present and, when its default is not
      `null`, not `null` either. */
  lemma FilledComplete(stored: Record, init: Record)
    ensures init.Keys <= Filled(stored, init).Keys
    ensures NoNulls(init) ==> forall k :: k in init ==> !Missing(Filled(stored, init), k)
  {
  }

  /** A stored value that is not `null` is kept, falsy or not; so is every stored key the
      defaults do not know; a missing key takes its default. */
  lemma FilledKeeps(stored: Record, init: Record, k: string)
    ensures k in stored && stored[k] != Null ==> Filled(stored, init)[k] == stored[k]
    ensures k in stored && k !in init ==> Filled(stored, init)[k] == stored[k]
    ensures k in init && Missing(stored, k) ==> Filled(stored, init)[k] == init[k]
    ensures k in Filled(stored, init) <==> k in stored || k in init
  {
  }

  /** Filling what was filled changes nothing. */
  lemma FilledIdempotent(stored: Record, init: Record)
    ensures Filled(Filled(stored, init), init) == Filled(stored, init)
  {
    var once := Filled(stored, init);
    var twice := Filled(once, init);
    forall k | k in twice ensures twice[k] == once[k] {
      if k in init && Missing(once, k) {
        assert Missing(stored, k) ==> once[k] == init[k];
      }
    }
    assert twice.Keys == once.Keys;
  }

  /** The falsy values that a truthiness test would have replaced survive the fill. */
  lemma FalsyKept(stored: Record, init: Record, k: string)
    requires k in stored && (stored[k] == Bool(false) || stored[k] == Number(0) || stored[k] == Str(""))
    ensures Filled(stored, init)[k] == stored[k]
  {
    FilledKeeps(stored, init, k);
  }

  /** The store of `storage(key, initValue)`. `local` is what `localStorage` holds under the
      key, as the record it parses to (`None` when nothing is stored). */
  class Store {
    const init: Record
    var value: Record
    var local: Option<Record>

    /** `storage`: outside the browser the store is just `initValue`. In the browser a stored
        record is filled and set, and the subscription writes the store's value back. */
    constructor(browser: bool, stored: Option<Record>, init: Record)
      ensures this.init == init
      ensures !browser ==> value == init && local == stored
      ensures browser && stored.None? ==> value == init
      ensures browser && stored.Some? ==> value == Filled(stored.value, init)
      ensures browser ==> local == Some(value)
    {
      this.init := init;
      value := init;
      local := stored;
      new;
      if browser {
        if stored.Some? {
          var v := Fill(stored.value, init);
          value := v;
        }
        local := Some(value);
      }
    }

    /** `store.set(v)` followed by the subscriber's `localStorage.setItem`. */
    method Set(v: Record)
      modifies this
      ensures value == v && local == Some(v)
    {
      value := v;
      local := Some(v);
    }

    /** The `storage` event listener: nothing stored leaves the store alone; otherwise the
        parsed record is always a new object, so it is filled, set and written back. */
    method OnStorage(stored: Option<Record>)
      modifies this
      ensures stored.None? ==> value == old(value) && local == old(local)
      ensures stored.Some? ==> value == Filled(stored.value, init) && local == Some(value)
    {
      if stored.None? {
        return;
      }
      var v := Fill(stored.value, init);
      Set(v);
    }
  }

  /** What the store holds right after `storage` runs in the browser. */
  function Loaded(stored: Option<Record>, init: Record): Record
  {
    if stored.None? then init else Filled(stored.value, init)
  }

  /** A reload from what the store saved gives the same settings back, and the store always
      holds every default key. */
  lemma ReloadStable(stored: Option<Record>, init: Record)
    ensures Loaded(Some(Loaded(stored, init)), init) == Loaded(stored, init)
    ensures init.Keys <= Loaded(stored, init).Keys
  {
    if stored.Some? {
      FilledIdempotent(stored.value, init);
    } else {
      assert Filled(init, init) == init;
    }
  }

  /** The `Settings` defaults. */
  const DefaultSettings: Record := map[
    "advanced_settings" := Bool(false),
    "fetch_related" := Bool(true),
    "endpoint_url" := Str("https://skynet.coypu.org/wikidata/"),
    "endpoint_type" := Str("wikidata"),
    "endpoint_lang" := Str("en"),
    "rate_limit" := Number(5),
    "size_limit" := Number(100),
    "fetch_image" := Bool(true),
    "animations" := Bool(false),
    "hide_edges_on_drag" := Bool(false),
    "hide_edge_labels" := Bool(false),
    "smooth_edges" := Bool(false),
    "smart_search" := Bool(true)
  ]

  /** No default setting is `null`; among them are a batch size of 5, a size limit of 100,
      related nodes and images fetched, and a Wikidata endpoint. */
  lemma DefaultsHaveNoNulls()
    ensures NoNulls(DefaultSettings)
    ensures DefaultSettings["rate_limit"] == Number(5) && DefaultSettings["size_limit"] == Number(100)
    ensures DefaultSettings["fetch_related"] == Bool(true) && DefaultSettings["fetch_image"] == Bool(true)
    ensures DefaultSettings["endpoint_type"] == Str("wikidata")
  {
  }

  /** Loaded settings: a stored `rate_limit` that is not `null` wins, otherwise it is 5; the
      defaults have no `null`, so no default key of the loaded settings is missing. */
  lemma LoadedSettings(stored: Option<Record>)
    ensures forall k :: k in DefaultSettings ==> !Missing(Loaded(stored, DefaultSettings), k)
    ensures Loaded(stored, DefaultSettings)["rate_limit"] ==
      if stored.Some? && !Missing(stored.value, "rate_limit") then stored.value["rate_limit"] else Number(5)
  {
    DefaultsHaveNoNulls();
    if stored.Some? {
      FilledComplete(stored.value, DefaultSettings);
      FilledKeeps(stored.value, DefaultSettings, "rate_limit");
    }
  }
}
