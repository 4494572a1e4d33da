/**
 * Record assembly in `extract_project_data`: one loaded project page in,
 * one ten-key record out, whichever of the eight page lookups failed.
 */
module Records {
  import opened Wrappers
  import opened Whitespace
  import opened Digits
  import opened Fields

  /** The JSON-compatible values a record holds. */
  datatype Value = Str(s: string) | Int(i: int) | Bool(b: bool)

  /** A record (a Python dict from field name to value). */
  type Record = map<string, Value>

  /** Where a field's text comes from: an element class and the attribute read. */
  datatype Selector = Selector(className: string, attribute: string)

  /**
   * A loaded project page, as far as the extractor sees it: the text each
   * selector yields. A selector that is absent stands for `find_element` or
   * `get_attribute` raising, or `get_attribute` returning None.
   */
  type Document = map<Selector, string>

  function Lookup(doc: Document, sel: Selector): Option<string> {
    if sel in doc then Some(doc[sel]) else None
  }

  const CREATORS := Selector("basicsCampaignOwner-details-name", "innerText")
  const TITLE := Selector("basicsSection-title", "innerText")
  const DESCRIPTION := Selector("basicsSection-tagline", "innerText")
  const PLEDGED := Selector("basicsGoalProgress-amountSold", "innerText")
  const GOAL := Selector("basicsGoalProgress-progressDetails-detailsGoal-goalPercentageOrInitiallyRaised", "textContent")
  const BACKERS := Selector("basicsGoalProgress-claimedOrBackers", "textContent")
  const DAYS_LEFT := Selector("basicsGoalProgress-progressDetails-detailsTimeLeft", "textContent")
  const GOAL_WORDING := Selector("basicsGoalProgress-progressDetails-detailsGoal-goalWording", "textContent")

  const TEXT_KEYS: set<string> := {"Creators", "Title", "Text"}
  const NUMBER_KEYS: set<string> := {"DollarsPledged", "DollarsGoal", "NumBackers", "DaysToGo"}
  const FLAG_KEY := "FlexibleGoal"
  /** The keys whose value is read from the page. */
  const PAGE_KEYS: set<string> := TEXT_KEYS + NUMBER_KEYS + {FLAG_KEY}
  /** The ten keys of every record. */
  const SCHEMA: set<string> := {"id", "url"} + PAGE_KEYS

  /** The selector a page field is read through. */
  function SelectorOf(key: string): Selector
    requires key in PAGE_KEYS
  {
    match key
    case "Creators" => CREATORS
    case "Title" => TITLE
    case "Text" => DESCRIPTION
    case "DollarsPledged" => PLEDGED
    case "DollarsGoal" => GOAL
    case "NumBackers" => BACKERS
    case "DaysToGo" => DAYS_LEFT
    case _ => GOAL_WORDING
  }

  /** The value a page field takes when its lookup fails. */
  function FallbackOf(key: string): Value
    requires key in PAGE_KEYS
  {
    if key in TEXT_KEYS then Str(UNKNOWN)
    else if key in NUMBER_KEYS then Int(MISSING_NUMBER)
    else Bool(false)
  }

  /** `extract_project_data(index_id, URL)` once `driver.get(URL)` has loaded `doc`. */
  function ExtractProjectData(indexId: nat, url: string, doc: Document): (r: Record)
    ensures r.Keys == SCHEMA
  {
    RecordOf(
      NatToString(indexId + 1), url,
      TextField(Lookup(doc, CREATORS)),
      TextField(Lookup(doc, TITLE)),
      TextField(Lookup(doc, DESCRIPTION)),
      NumericField(Lookup(doc, PLEDGED)),
      GoalField(Lookup(doc, GOAL)),
      NumericField(Lookup(doc, BACKERS)),
      NumericField(Lookup(doc, DAYS_LEFT)),
      FlexibleField(Lookup(doc, GOAL_WORDING)))
  }

  /** The dict literal `extract_project_data` returns, over the ten normalised values. */
  function RecordOf(id: string, url: string, creators: string, title: string, text: string,
                    pledged: int, goal: int, backers: int, days: int, flexible: bool): (r: Record)
    ensures r.Keys == SCHEMA
  {
    map[
      "id" := Str(id),
      "url" := Str(url),
      "Creators" := Str(creators),
      "Title" := Str(title),
      "Text" := Str(text),
      "DollarsPledged" := Int(pledged),
      "DollarsGoal" := Int(goal),
      "NumBackers" := Int(backers),
      "DaysToGo" := Int(days),
      "FlexibleGoal" := Bool(flexible)
    ]
  }

  /** Each key of the dict literal holds the value written beside it. */
  lemma RecordOfValues(id: string, url: string, creators: string, title: string, text: string,
                       pledged: int, goal: int, backers: int, days: int, flexible: bool)
    ensures var r := RecordOf(id, url, creators, title, text, pledged, goal, backers, days, flexible);
      && r["id"] == Str(id) && r["url"] == Str(url)
      && r["Creators"] == Str(creators) && r["Title"] == Str(title) && r["Text"] == Str(text)
      && r["DollarsPledged"] == Int(pledged) && r["DollarsGoal"] == Int(goal)
      && r["NumBackers"] == Int(backers) && r["DaysToGo"] == Int(days)
      && r["FlexibleGoal"] == Bool(flexible)
  {
  }

  /** The value under each key of an extracted record. */
  lemma ExtractedValues(indexId: nat, url: string, doc: Document)
    ensures var r := ExtractProjectData(indexId, url, doc);
      && r["id"] == Str(NatToString(indexId + 1)) && r["url"] == Str(url)
      && r["Creators"] == Str(TextField(Lookup(doc, CREATORS)))
      && r["Title"] == Str(TextField(Lookup(doc, TITLE)))
      && r["Text"] == Str(TextField(Lookup(doc, DESCRIPTION)))
      && r["DollarsPledged"] == Int(NumericField(Lookup(doc, PLEDGED)))
      && r["DollarsGoal"] == Int(GoalField(Lookup(doc, GOAL)))
      && r["NumBackers"] == Int(NumericField(Lookup(doc, BACKERS)))
      && r["DaysToGo"] == Int(NumericField(Lookup(doc, DAYS_LEFT)))
      && r["FlexibleGoal"] == Bool(FlexibleField(Lookup(doc, GOAL_WORDING)))
  {
    RecordOfValues(
      NatToString(indexId + 1), url,
      TextField(Lookup(doc, CREATORS)),
      TextField(Lookup(doc, TITLE)),
      TextField(Lookup(doc, DESCRIPTION)),
      NumericField(Lookup(doc, PLEDGED)),
      GoalField(Lookup(doc, GOAL)),
      NumericField(Lookup(doc, BACKERS)),
      NumericField(Lookup(doc, DAYS_LEFT)),
      FlexibleField(Lookup(doc, GOAL_WORDING)));
  }

  /**
   * The shape every extracted record has: text fields are strings, numeric
   * fields are -1 or a non-negative integer, the flag is a boolean.
   */
  predicate WellTyped(r: Record) {
    && r.Keys == SCHEMA
    && r["id"].Str? && r["url"].Str?
    && (forall k | k in TEXT_KEYS :: r[k].Str?)
    && (forall k | k in NUMBER_KEYS :: r[k].Int? && (r[k].i == -1 || r[k].i >= 0))
    && r[FLAG_KEY].Bool?
  }

  /** Every extracted record has the shape `WellTyped` describes. */
  lemma RecordTyped(indexId: nat, url: string, doc: Document)
    ensures WellTyped(ExtractProjectData(indexId, url, doc))
  {
    var r := ExtractProjectData(indexId, url, doc);
    ExtractedValues(indexId, url, doc);
    forall k | k in TEXT_KEYS ensures r[k].Str? {
      PageField(indexId, url, doc, k);
    }
    forall k | k in NUMBER_KEYS ensures r[k].Int? && (r[k].i == -1 || r[k].i >= 0) {
      PageField(indexId, url, doc, k);
    }
  }

  /**
   * Schema coverage: the record has exactly the ten keys, is well typed,
   * its id is `str(index_id + 1)` (so it reads back as index_id + 1) and its
   * url is the input URL unchanged, however many lookups failed.
   */
  lemma RecordSchema(indexId: nat, url: string, doc: Document)
    ensures var r := ExtractProjectData(indexId, url, doc);
      && WellTyped(r)
      && ParseInt(r["id"].s) == Some(indexId + 1)
      && r["url"] == Str(url)
  {
    RecordTyped(indexId, url, doc);
    ExtractedValues(indexId, url, doc);
    ParseNatToString(indexId + 1);
  }

  /** The value a page field takes from its lookup's result. */
  function FieldValue(key: string, text: Option<string>): Value
    requires key in PAGE_KEYS
  {
    if key in TEXT_KEYS then Str(TextField(text))
    else if key == "DollarsGoal" then Int(GoalField(text))
    else if key in NUMBER_KEYS then Int(NumericField(text))
    else Bool(FlexibleField(text))
  }

  /** Each page field of the record is its normaliser applied to its own selector's lookup. */
  lemma PageField(indexId: nat, url: string, doc: Document, key: string)
    requires key in PAGE_KEYS
    ensures ExtractProjectData(indexId, url, doc)[key] == FieldValue(key, Lookup(doc, SelectorOf(key)))
  {
    var r := ExtractProjectData(indexId, url, doc);
    match key
    case "Creators" =>
    case "Title" =>
    case "Text" =>
    case "DollarsPledged" =>
    case "DollarsGoal" =>
    case "NumBackers" =>
    case "DaysToGo" =>
    case "FlexibleGoal" =>
  }

  /**
   * Per-field isolation: the value of a page field depends on that field's
   * own lookup and on nothing else in the page.
   */
  lemma FieldIsolation(indexId: nat, url: string, d1: Document, d2: Document, key: string)
    requires key in PAGE_KEYS
    requires Lookup(d1, SelectorOf(key)) == Lookup(d2, SelectorOf(key))
    ensures ExtractProjectData(indexId, url, d1)[key] == ExtractProjectData(indexId, url, d2)[key]
  {
    PageField(indexId, url, d1, key);
    PageField(indexId, url, d2, key);
  }

  /** A page field whose lookup fails holds exactly its fallback. */
  lemma MissingFieldFallsBack(indexId: nat, url: string, doc: Document, key: string)
    requires key in PAGE_KEYS
    requires Lookup(doc, SelectorOf(key)) == None
    ensures ExtractProjectData(indexId, url, doc)[key] == FallbackOf(key)
  {
    PageField(indexId, url, doc, key);
  }

  /** Records built from different positions of the URL list have different ids. */
  lemma DistinctIds(i: nat, j: nat, u: string, v: string, d: Document, e: Document)
    requires i != j
    ensures ExtractProjectData(i, u, d)["id"] != ExtractProjectData(j, v, e)["id"]
  {
    RecordId(i, u, d);
    RecordId(j, v, e);
    ParseNatToString(i + 1);
    ParseNatToString(j + 1);
  }

  lemma RecordId(indexId: nat, url: string, doc: Document)
    ensures ExtractProjectData(indexId, url, doc)["id"] == Str(NatToString(indexId + 1))
  {
    ExtractedValues(indexId, url, doc);
  }
}
