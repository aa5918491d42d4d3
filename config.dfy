/** Loading `config.json`: the file's object is completed with the default keys,
    and its `templates` with the default templates; any error while reading or
    completing it gives the default configuration. */
module Config {
  import opened Wrappers
  import opened Text

  /** A value `json.load` can return. */
  datatype Json =
    | JNull
    | JBool(b: bool)
    | JNumber(n: real)
    | JString(s: string)
    | JList(items: seq<Json>)
    | JObject(fields: map<string, Json>)

  /** What opening and parsing the configuration file gives. */
  datatype ConfigFile =
    | Missing
      /** The file exists but cannot be read or is not valid JSON. */
    | Unreadable
    | Loaded(json: Json)

  /** The entries of a dictionary in insertion order, as `items()` yields them. */
  type Items = seq<(string, Json)>

  predicate Distinct(items: Items)
  {
    forall i, j :: 0 <= i < j < |items| ==> items[i].0 != items[j].0
  }

  function KeysOf(items: Items): set<string>
  {
    set i | 0 <= i < |items| :: items[i].0
  }

  /** The dictionary a literal with these (distinct) entries builds. */
  function ObjectOf(items: Items): map<string, Json>
    requires Distinct(items)
  {
    map i | 0 <= i < |items| :: items[i].0 := items[i].1
  }

  function TemplatesKey(): string { "templates" }

  // Each default template text is written as a concatenation of short literals,
  // which keeps the proofs about merged configurations within the solver's
  // resource limit; the value is the one sentence they form.

  function StandardSummaryPrompt(): string
  {
    "Please create a " + "concise summary " + "of the " + "following " + "transcript. " +
    "Identify key " + "points, " + "decisions, and " + "action items if " + "present."
  }

  function MeetingNotesPrompt(): string
  {
    "Please analyze " + "this meeting " + "transcript and " + "create " + "structured " +
    "notes with " + "these sections: " + "1) Attendees, " + "2) Key " + "Discussion " +
    "Points, 3) " + "Decisions Made, " + "4) Action Items " + "with Owners, 5) " +
    "Next Steps"
  }

  function ExecutiveSummaryPrompt(): string
  {
    "Create an " + "executive " + "summary of this " + "transcript. " + "Focus on " +
    "strategic " + "implications, " + "key decisions, " + "and " + "recommendations. " +
    "Keep it brief " + "but " + "comprehensive."
  }

  /** The default templates, in the order the merge visits them. */
  function DefaultTemplateItems(): Items
  {
    [ ("Standard Summary", JString(StandardSummaryPrompt())),
      ("Meeting Notes", JString(MeetingNotesPrompt())),
      ("Executive Summary", JString(ExecutiveSummaryPrompt())) ]
  }

  /** The default configuration's entries, in the order the merge visits them. */
  function DefaultItems(): Items
  {
    [ ("api_key", JString("")),
      ("pyannote_token", JString("")),
      ("model", JString("gpt-4o")),
      ("temperature", JNumber(0.7)),
      ("language", JString("en")),
      (TemplatesKey(), JObject(ObjectOf(DefaultTemplateItems()))) ]
  }

  function DefaultConfig(): Json
  {
    JObject(ObjectOf(DefaultItems()))
  }

  /** Python's `key in container`: keys of an object, substrings of a string,
      elements of a list; any other value raises (`None`). */
  function Member(container: Json, key: string): Option<bool>
  {
    match container
    case JObject(fields) => Some(key in fields)
    case JString(s) => Some(Contains(s, key))
    case JList(items) => Some(JString(key) in items)
    case _ => None
  }

  /** Python's `container[key] = value`: only an object accepts a string key. */
  function SetItem(container: Json, key: string, value: Json): Option<Json>
  {
    if container.JObject? then Some(JObject(container.fields[key := value])) else None
  }

  /** `if key not in container: container[key] = value`, or `None` where that
      raises. */
  function AddMissing(container: Json, item: (string, Json)): Option<Json>
  {
    match Member(container, item.0)
    case None => None
    case Some(present) => if present then Some(container) else SetItem(container, item.0, item.1)
  }

  /** `AddMissing` for each entry in turn, stopping at the first error: the inner
      loop over the default templates. */
  function AddAllMissing(container: Json, items: Items): Option<Json>
    decreases |items|
  {
    if items == [] then Some(container)
    else
      match AddMissing(container, items[0])
      case None => None
      case Some(next) => AddAllMissing(next, items[1..])
  }

  /** Every key of `items` is `in` the value. */
  predicate AllIn(container: Json, items: Items)
  {
    forall i :: 0 <= i < |items| ==> Member(container, items[i].0) == Some(true)
  }

  /** The `templates` branch: read `config["templates"]` and add the missing
      templates to it. */
  function TemplatesInto(config: Json, templateItems: Items): Option<Json>
  {
    if config.JObject? && TemplatesKey() in config.fields then
      match AddAllMissing(config.fields[TemplatesKey()], templateItems)
      case None => None
      case Some(t) => Some(JObject(config.fields[TemplatesKey() := t]))
    else None
  }

  /** One pass of the outer loop: add the key if missing and, for `templates` with
      an object default, complete the templates with `templateItems`. */
  function KeyStep(config: Json, item: (string, Json), templateItems: Items): Option<Json>
  {
    match AddMissing(config, item)
    case None => None
    case Some(c) =>
      if item.0 == TemplatesKey() && item.1.JObject? then TemplatesInto(c, templateItems) else Some(c)
  }

  /** The outer loop over the default entries, stopping at the first error. */
  function KeysFold(config: Json, items: Items, templateItems: Items): Option<Json>
    decreases |items|
  {
    if items == [] then Some(config)
    else
      match KeyStep(config, items[0], templateItems)
      case None => None
      case Some(next) => KeysFold(next, items[1..], templateItems)
  }

  /** `load_config`: the completed file contents, or the defaults when the file is
      missing, unreadable or completing it raises. */
  function ConfigFor(file: ConfigFile): Json
  {
    match file
    case Loaded(json) =>
      (match KeysFold(json, DefaultItems(), DefaultTemplateItems())
       case Some(config) => config
       case None => DefaultConfig())
    case _ => DefaultConfig()
  }

  /** The inner loop of `load_config`. */
  method MergeTemplates(templates: Json, items: Items) returns (r: Option<Json>)
    ensures r == AddAllMissing(templates, items)
  {
    var current := templates;
    var i := 0;
    while i < |items|
      invariant 0 <= i <= |items|
      invariant AddAllMissing(templates, items) == AddAllMissing(current, items[i..])
    {
      var (name, content) := items[i];
      assert items[i..][1..] == items[i + 1..];
      var present := Member(current, name);
      if present.None? {
        return None;
      }
      if !present.value {
        if !current.JObject? {
          return None;
        }
        current := JObject(current.fields[name := content]);
      }
      i := i + 1;
    }
    r := Some(current);
  }

  /** `load_config`, the merge loop over the default entries. */
  method LoadConfig(file: ConfigFile) returns (config: Json)
    ensures config == ConfigFor(file)
  {
    if !file.Loaded? {
      return DefaultConfig();
    }
    var json := file.json;
    var items := DefaultItems();
    config := json;
    var i := 0;
    while i < |items|
      invariant 0 <= i <= |items|
      invariant KeysFold(json, items, DefaultTemplateItems()) == KeysFold(config, items[i..], DefaultTemplateItems())
    {
      var (key, value) := items[i];
      assert items[i..][1..] == items[i + 1..];
      var present := Member(config, key);
      if present.None? {
        return DefaultConfig();
      }
      if !present.value {
        if !config.JObject? {
          return DefaultConfig();
        }
        config := JObject(config.fields[key := value]);
      }
      if key == TemplatesKey() && value.JObject? {
        if !(config.JObject? && TemplatesKey() in config.fields) {
          return DefaultConfig();
        }
        var merged := MergeTemplates(config.fields[TemplatesKey()], DefaultTemplateItems());
        if merged.None? {
          return DefaultConfig();
        }
        config := JObject(config.fields[TemplatesKey() := merged.value]);
      }
      i := i + 1;
    }
  }

  // ----- What the merge computes -----

  /** A literal with distinct keys maps each key to its value. */
  lemma ObjectOfDistinct(items: Items)
    requires Distinct(items)
    ensures ObjectOf(items).Keys == KeysOf(items)
    ensures forall i :: 0 <= i < |items| ==> ObjectOf(items)[items[i].0] == items[i].1
  {
  }

  /** On an object, the loop adds the keys it lacks and keeps the values it has. */
  lemma {:induction false} AddAllMissingObject(t: map<string, Json>, items: Items)
    requires Distinct(items)
    ensures var r := AddAllMissing(JObject(t), items);
      && r.Some? && r.value.JObject?
      && r.value.fields.Keys == t.Keys + KeysOf(items)
      && (forall k :: k in t ==> r.value.fields[k] == t[k])
      && (forall i :: 0 <= i < |items| && items[i].0 !in t ==> r.value.fields[items[i].0] == items[i].1)
    decreases |items|
  {
    if items != [] {
      var (name, content) := items[0];
      var next := if name in t then t else t[name := content];
      assert AddMissing(JObject(t), items[0]) == Some(JObject(next));
      var rest := items[1..];
      assert Distinct(rest) by {
        forall i, j | 0 <= i < j < |rest| ensures rest[i].0 != rest[j].0 {
          assert rest[i] == items[i + 1] && rest[j] == items[j + 1];
        }
      }
      AddAllMissingObject(next, rest);
      assert KeysOf(items) == {name} + KeysOf(rest) by {
        assert forall i :: 0 <= i < |rest| ==> rest[i] == items[i + 1];
        forall k | k in KeysOf(items) ensures k in {name} + KeysOf(rest) {
          var i :| 0 <= i < |items| && items[i].0 == k;
          if i > 0 { assert rest[i - 1] == items[i]; }
        }
      }
      var r := AddAllMissing(JObject(next), rest).value.fields;
      forall i | 0 <= i < |items| && items[i].0 !in t
        ensures r[items[i].0] == items[i].1
      {
        if i > 0 {
          assert rest[i - 1] == items[i];
        }
      }
    }
  }

  /** On any other value the loop changes nothing, and succeeds exactly when every
      key is already `in` the value. */
  lemma {:induction false} AddAllMissingOther(container: Json, items: Items)
    requires !container.JObject?
    ensures AddAllMissing(container, items) == if AllIn(container, items) then Some(container) else None
    decreases |items|
  {
    if items != [] {
      var rest := items[1..];
      AddAllMissingOther(container, rest);
      assert forall i :: 0 <= i < |rest| ==> rest[i] == items[i + 1];
      if AllIn(container, rest) && Member(container, items[0].0) == Some(true) {
        forall i | 0 <= i < |items| ensures Member(container, items[i].0) == Some(true) {
          if i > 0 { assert rest[i - 1] == items[i]; }
        }
      }
    }
  }

  /** Without the `templates` entry, the outer loop is the plain add-if-missing
      loop. */
  lemma {:induction false} KeysFoldPlain(config: Json, items: Items, templateItems: Items)
    requires forall i :: 0 <= i < |items| ==> items[i].0 != TemplatesKey()
    ensures KeysFold(config, items, templateItems) == AddAllMissing(config, items)
    decreases |items|
  {
    if items != [] {
      match AddMissing(config, items[0])
      case None =>
      case Some(next) =>
        assert forall i :: 0 <= i < |items| - 1 ==> items[1..][i] == items[i + 1];
        KeysFoldPlain(next, items[1..], templateItems);
    }
  }

  lemma {:induction false} KeysFoldAppend(config: Json, a: Items, b: Items, templateItems: Items)
    ensures KeysFold(config, a + b, templateItems) ==
      match KeysFold(config, a, templateItems)
      case None => None
      case Some(c) => KeysFold(c, b, templateItems)
    decreases |a|
  {
    if a == [] {
      assert a + b == b;
    } else {
      assert (a + b)[1..] == a[1..] + b;
      match KeyStep(config, a[0], templateItems)
      case None =>
      case Some(next) => KeysFoldAppend(next, a[1..], b, templateItems);
    }
  }

  /** The shape of the default entries: distinct keys, `templates` last with an
      object default. */
  lemma DefaultItemsFacts()
    ensures Distinct(DefaultItems()) && Distinct(DefaultTemplateItems())
    ensures |DefaultItems()| == 6
    ensures forall i :: 0 <= i < 5 ==> DefaultItems()[i].0 != TemplatesKey()
    ensures DefaultItems()[5] == (TemplatesKey(), JObject(ObjectOf(DefaultTemplateItems())))
    ensures TemplatesKey() in KeysOf(DefaultItems())
  {
    assert DefaultItems()[5].0 == TemplatesKey();
  }

  /** On an object, entries without `templates` are just added where missing. */
  lemma PlainMerge(m: map<string, Json>, plain: Items, templateItems: Items) returns (v: map<string, Json>)
    requires Distinct(plain)
    requires forall i :: 0 <= i < |plain| ==> plain[i].0 != TemplatesKey()
    ensures KeysFold(JObject(m), plain, templateItems) == Some(JObject(v))
    ensures v.Keys == m.Keys + KeysOf(plain)
    ensures forall k :: k in m ==> v[k] == m[k]
    ensures forall i :: 0 <= i < |plain| && plain[i].0 !in m ==> v[plain[i].0] == plain[i].1
  {
    KeysFoldPlain(JObject(m), plain, templateItems);
    AddAllMissingObject(m, plain);
    v := AddAllMissing(JObject(m), plain).value.fields;
  }

  /** The outer loop on an object, for entries that end with `templates` and an
      object default: first every key the object lacks is added (giving `w`), then
      `w`'s templates are completed. */
  lemma ObjectMergeSteps(m: map<string, Json>, items: Items, templateItems: Items) returns (w: map<string, Json>)
    requires Distinct(items) && |items| > 0
    requires forall i :: 0 <= i < |items| - 1 ==> items[i].0 != TemplatesKey()
    requires items[|items| - 1].0 == TemplatesKey() && items[|items| - 1].1.JObject?
    ensures w.Keys == m.Keys + KeysOf(items)
    ensures forall k :: k in m ==> w[k] == m[k]
    ensures forall i :: 0 <= i < |items| && items[i].0 !in m ==> w[items[i].0] == items[i].1
    ensures KeysFold(JObject(m), items, templateItems) == TemplatesInto(JObject(w), templateItems)
  {
    var n := |items|;
    var plain := items[..n - 1];
    var last := items[n - 1];
    assert items == plain + [last];
    assert forall i :: 0 <= i < |plain| ==> plain[i] == items[i];
    KeysFoldAppend(JObject(m), plain, [last], templateItems);
    var v := PlainMerge(m, plain, templateItems);
    w := if last.0 in v then v else v[last.0 := last.1];
    assert KeysFold(JObject(m), items, templateItems) == TemplatesInto(JObject(w), templateItems) by {
      assert AddMissing(JObject(v), last) == Some(JObject(w));
      assert KeysFold(JObject(v), [last], templateItems) == KeyStep(JObject(v), last, templateItems);
    }
    assert KeysOf(items) == KeysOf(plain) + {last.0} by {
      forall k | k in KeysOf(items) ensures k in KeysOf(plain) + {last.0} {
        var i :| 0 <= i < |items| && items[i].0 == k;
        if i < n - 1 { assert plain[i] == items[i]; }
      }
    }
    assert last.0 !in KeysOf(plain);
    forall i | 0 <= i < |items| && items[i].0 !in m
      ensures w[items[i].0] == items[i].1
    {
      if i < n - 1 {
        assert plain[i] == items[i];
        assert items[i].0 != last.0;
      }
    }
  }

  /** The merge of an object `m` with the default entries. */
  lemma ObjectMerge(m: map<string, Json>) returns (w: map<string, Json>)
    ensures w.Keys == m.Keys + KeysOf(DefaultItems())
    ensures forall k :: k in m ==> w[k] == m[k]
    ensures forall i :: 0 <= i < |DefaultItems()| && DefaultItems()[i].0 !in m ==>
      w[DefaultItems()[i].0] == DefaultItems()[i].1
    ensures KeysFold(JObject(m), DefaultItems(), DefaultTemplateItems()) == TemplatesInto(JObject(w), DefaultTemplateItems())
  {
    DefaultItemsFacts();
    w := ObjectMergeSteps(m, DefaultItems(), DefaultTemplateItems());
  }

  /** Completing the `templates` of an object that has that key. */
  lemma TemplatesIntoFacts(w: map<string, Json>, templateItems: Items)
    requires TemplatesKey() in w && Distinct(templateItems)
    ensures var t := w[TemplatesKey()];
      var r := TemplatesInto(JObject(w), templateItems);
      && (r.None? <==> !t.JObject? && !AllIn(t, templateItems))
      && (r.Some? ==>
            && r.value.JObject?
            && r.value.fields == w[TemplatesKey() := r.value.fields[TemplatesKey()]]
            && AllIn(r.value.fields[TemplatesKey()], templateItems)
            && (!t.JObject? ==> r.value.fields[TemplatesKey()] == t)
            && (t.JObject? ==>
                  var done := r.value.fields[TemplatesKey()];
                  && done.JObject?
                  && done.fields.Keys == t.fields.Keys + KeysOf(templateItems)
                  && (forall k :: k in t.fields ==> done.fields[k] == t.fields[k])
                  && (forall i :: 0 <= i < |templateItems| && templateItems[i].0 !in t.fields ==>
                        done.fields[templateItems[i].0] == templateItems[i].1)))
  {
    var t := w[TemplatesKey()];
    if t.JObject? {
      AddAllMissingObject(t.fields, templateItems);
      var done := AddAllMissing(t, templateItems).value;
      assert AllIn(done, templateItems) by {
        forall i | 0 <= i < |templateItems| ensures Member(done, templateItems[i].0) == Some(true) {
          assert templateItems[i].0 in KeysOf(templateItems);
        }
      }
    } else {
      AddAllMissingOther(t, templateItems);
    }
  }

  /** Adding keys or templates to an object that holds them all changes nothing. */
  lemma CompleteIsFixed(c: map<string, Json>, items: Items, templateItems: Items)
    requires WellShaped(items, templateItems)
    requires KeysOf(items) <= c.Keys
    requires TemplatesKey() in c && AllIn(c[TemplatesKey()], templateItems)
    ensures KeysFold(JObject(c), items, templateItems) == Some(JObject(c))
  {
    var w := ObjectMergeSteps(c, items, templateItems);
    assert w == c;
    TemplatesIntoFacts(w, templateItems);
    var t := c[TemplatesKey()];
    var r := TemplatesInto(JObject(w), templateItems).value;
    if t.JObject? {
      var done := r.fields[TemplatesKey()];
      assert done == t by {
        forall k | k in KeysOf(templateItems) ensures k in t.fields {
          var i :| 0 <= i < |templateItems| && templateItems[i].0 == k;
          assert Member(t, templateItems[i].0) == Some(true);
        }
        assert done.fields.Keys == t.fields.Keys;
      }
    }
    assert r.fields == c;
  }

  /** A value that is not an object raises before the merge ends: reading
      `config["templates"]` needs an object. */
  lemma {:induction false} NonObjectFails(config: Json, items: Items, templateItems: Items)
    requires !config.JObject?
    requires exists i :: 0 <= i < |items| && items[i].0 == TemplatesKey() && items[i].1.JObject?
    ensures KeysFold(config, items, templateItems) == None
    decreases |items|
  {
    if !(items[0].0 == TemplatesKey() && items[0].1.JObject?) {
      var i :| 0 <= i < |items| && items[i].0 == TemplatesKey() && items[i].1.JObject?;
      assert items[1..][i - 1] == items[i];
      match AddMissing(config, items[0])
      case None =>
      case Some(next) => NonObjectFails(next, items[1..], templateItems);
    }
  }

  /** The file's value must be an object; anything else gives the defaults. */
  lemma NonObjectConfigUsesDefaults(json: Json)
    requires !json.JObject?
    ensures ConfigFor(Loaded(json)) == DefaultConfig()
  {
    DefaultItemsFacts();
    assert DefaultItems()[5].0 == TemplatesKey() && DefaultItems()[5].1.JObject?;
    NonObjectFails(json, DefaultItems(), DefaultTemplateItems());
  }

  /** An object gives the defaults exactly when its `templates` is neither an object
      nor holds every default template name. */
  lemma MergeFailsIff(m: map<string, Json>)
    ensures KeysFold(JObject(m), DefaultItems(), DefaultTemplateItems()).None? <==>
      TemplatesKey() in m && !m[TemplatesKey()].JObject? && !AllIn(m[TemplatesKey()], DefaultTemplateItems())
  {
    var w := ObjectMerge(m);
    DefaultItemsFacts();
    TemplatesIntoFacts(w, DefaultTemplateItems());
    if TemplatesKey() !in m {
      assert DefaultItems()[5].0 == TemplatesKey();
    }
  }

  /** The entries the merge is run with: distinct keys, `templates` last with the
      object built from `templateItems` as its default. */
  predicate WellShaped(items: Items, templateItems: Items)
  {
    && Distinct(items) && |items| > 0 && Distinct(templateItems)
    && (forall i :: 0 <= i < |items| - 1 ==> items[i].0 != TemplatesKey())
    && items[|items| - 1] == (TemplatesKey(), JObject(ObjectOf(templateItems)))
  }

  /** A successful merge keeps every value the object sets other than `templates`
      and adds each missing entry with its default value. */
  lemma MergeKeepsValues(m: map<string, Json>, items: Items, templateItems: Items)
    requires WellShaped(items, templateItems)
    requires KeysFold(JObject(m), items, templateItems).Some?
    ensures var config := KeysFold(JObject(m), items, templateItems).value;
      && config.JObject?
      && config.fields.Keys == m.Keys + KeysOf(items)
      && (forall k :: k in m && k != TemplatesKey() ==> config.fields[k] == m[k])
      && (forall i :: 0 <= i < |items| && items[i].0 !in m && items[i].0 != TemplatesKey() ==>
            config.fields[items[i].0] == items[i].1)
  {
    var w := ObjectMergeSteps(m, items, templateItems);
    TemplatesIntoFacts(w, templateItems);
  }

  /** A successful merge keeps a `templates` object's entries and adds the missing
      templates, keeps any other `templates` value, and gives a missing one the
      default templates. */
  lemma MergeKeepsTemplates(m: map<string, Json>, items: Items, templateItems: Items)
    requires WellShaped(items, templateItems)
    requires KeysFold(JObject(m), items, templateItems).Some?
    ensures var config := KeysFold(JObject(m), items, templateItems).value;
      && config.JObject? && TemplatesKey() in config.fields
      && var t := config.fields[TemplatesKey()];
      && AllIn(t, templateItems)
      && (TemplatesKey() !in m ==> t == JObject(ObjectOf(templateItems)))
      && (TemplatesKey() in m && !m[TemplatesKey()].JObject? ==> t == m[TemplatesKey()])
      && (TemplatesKey() in m && m[TemplatesKey()].JObject? ==>
            && t.JObject?
            && t.fields.Keys == m[TemplatesKey()].fields.Keys + KeysOf(templateItems)
            && forall name :: name in m[TemplatesKey()].fields ==> t.fields[name] == m[TemplatesKey()].fields[name])
  {
    var w := ObjectMergeSteps(m, items, templateItems);
    TemplatesIntoFacts(w, templateItems);
    if TemplatesKey() !in m {
      var templates := ObjectOf(templateItems);
      assert w[TemplatesKey()] == JObject(templates) by {
        assert items[|items| - 1].0 !in m;
      }
      ObjectOfDistinct(templateItems);
      var done := KeysFold(JObject(m), items, templateItems).value.fields[TemplatesKey()];
      assert done == JObject(templates) by {
        assert done.fields.Keys == templates.Keys;
      }
    }
  }

  lemma DefaultsWellShaped()
    ensures WellShaped(DefaultItems(), DefaultTemplateItems())
  {
    DefaultItemsFacts();
  }

  /** Loading an object keeps every value it sets other than `templates`, and adds
      each missing default entry with its default value. */
  lemma LoadedValuesKept(m: map<string, Json>)
    requires KeysFold(JObject(m), DefaultItems(), DefaultTemplateItems()).Some?
    ensures var config := ConfigFor(Loaded(JObject(m)));
      && config.JObject?
      && config.fields.Keys == m.Keys + KeysOf(DefaultItems())
      && (forall k :: k in m && k != TemplatesKey() ==> config.fields[k] == m[k])
      && (forall i :: 0 <= i < |DefaultItems()| && DefaultItems()[i].0 !in m && DefaultItems()[i].0 != TemplatesKey() ==>
            config.fields[DefaultItems()[i].0] == DefaultItems()[i].1)
  {
    DefaultsWellShaped();
    MergeKeepsValues(m, DefaultItems(), DefaultTemplateItems());
  }

  /** A `templates` object keeps its entries and gains the default templates it
      lacks; any other `templates` value that loads is kept as it is; a missing one
      gets the default templates. */
  lemma LoadedTemplatesKept(m: map<string, Json>)
    requires KeysFold(JObject(m), DefaultItems(), DefaultTemplateItems()).Some?
    ensures var config := ConfigFor(Loaded(JObject(m)));
      && config.JObject? && TemplatesKey() in config.fields
      && var t := config.fields[TemplatesKey()];
      && (TemplatesKey() !in m ==> t == JObject(ObjectOf(DefaultTemplateItems())))
      && (TemplatesKey() in m && !m[TemplatesKey()].JObject? ==> t == m[TemplatesKey()])
      && (TemplatesKey() in m && m[TemplatesKey()].JObject? ==>
            && t.JObject?
            && t.fields.Keys == m[TemplatesKey()].fields.Keys + KeysOf(DefaultTemplateItems())
            && forall name :: name in m[TemplatesKey()].fields ==> t.fields[name] == m[TemplatesKey()].fields[name])
  {
    DefaultsWellShaped();
    MergeKeepsTemplates(m, DefaultItems(), DefaultTemplateItems());
  }

  /** A successful merge is complete. */
  lemma MergedConfigComplete(m: map<string, Json>)
    requires KeysFold(JObject(m), DefaultItems(), DefaultTemplateItems()).Some?
    ensures var config := ConfigFor(Loaded(JObject(m)));
      && config.JObject?
      && KeysOf(DefaultItems()) <= config.fields.Keys
      && TemplatesKey() in config.fields
      && AllIn(config.fields[TemplatesKey()], DefaultTemplateItems())
  {
    DefaultsWellShaped();
    MergeKeepsValues(m, DefaultItems(), DefaultTemplateItems());
    MergeKeepsTemplates(m, DefaultItems(), DefaultTemplateItems());
  }

  /** Every configuration `load_config` returns is an object with every default key
      whose `templates` holds every default template name. */
  lemma LoadedConfigComplete(file: ConfigFile)
    ensures var config := ConfigFor(file);
      && config.JObject?
      && KeysOf(DefaultItems()) <= config.fields.Keys
      && TemplatesKey() in config.fields
      && AllIn(config.fields[TemplatesKey()], DefaultTemplateItems())
  {
    if file.Loaded? && file.json.JObject? && KeysFold(file.json, DefaultItems(), DefaultTemplateItems()).Some? {
      MergedConfigComplete(file.json.fields);
    } else {
      assert ConfigFor(file) == DefaultConfig() by {
        if file.Loaded? && !file.json.JObject? {
          NonObjectConfigUsesDefaults(file.json);
        }
      }
      DefaultsComplete();
    }
  }

  /** The defaults are complete. */
  lemma DefaultsComplete()
    ensures DefaultConfig().fields.Keys == KeysOf(DefaultItems())
    ensures TemplatesKey() in DefaultConfig().fields
    ensures DefaultConfig().fields[TemplatesKey()] == JObject(ObjectOf(DefaultTemplateItems()))
    ensures AllIn(DefaultConfig().fields[TemplatesKey()], DefaultTemplateItems())
  {
    DefaultItemsFacts();
    ObjectOfDistinct(DefaultItems());
    ObjectOfDistinct(DefaultTemplateItems());
    assert DefaultItems()[5].0 == TemplatesKey();
    var items := DefaultTemplateItems();
    forall i | 0 <= i < |items|
      ensures Member(JObject(ObjectOf(items)), items[i].0) == Some(true)
    {
      assert items[i].0 in KeysOf(items);
    }
  }

  /** Loading a configuration `load_config` returned gives it back. */
  lemma LoadConfigIdempotent(file: ConfigFile)
    ensures ConfigFor(Loaded(ConfigFor(file))) == ConfigFor(file)
  {
    LoadedConfigComplete(file);
    DefaultsWellShaped();
    CompleteIsFixed(ConfigFor(file).fields, DefaultItems(), DefaultTemplateItems());
  }
}
