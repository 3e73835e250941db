/**
 * The denormalised fields of a program (`Program` in program_v2): the cached
 * dimension map, the localised location, the colour, and the earliest start
 * and latest end of its schedule items, refreshed for one program or for a
 * queryset of programs in batches. Database rows are objects; saving them is
 * not modelled, assigning their fields is.
 */
module Programs {
  import opened Wrappers
  import opened OrderedDicts
  import opened Batching

  /** `ProgramV2EventMeta`, as far as these rules read it: the location dimension, by slug. */
  datatype Meta = Meta(locationDimension: Option<string>)

  /** The event of a program: the slugs of its program dimensions in order, and its program meta if any. */
  datatype Event = Event(slug: string, programDimensionSlugs: seq<string>, programV2EventMeta: Option<Meta>)

  /** A dimension value: its slug, its localised titles (language to title) and its colour. */
  datatype DimensionValue = DimensionValue(slug: string, title: Dict<string, string>, color: string)

  /** `ProgramDimensionValue`: a program's value of one dimension, the dimension given by its slug. */
  datatype Pdv = Pdv(dimensionSlug: string, value: DimensionValue)

  /** The exceptions of the refresh rules. */
  datatype ProgramError =
    | KeyError(slug: string)   // a value of a dimension the event does not have
    | TypeError                // the event has no program meta

  const ProgramBatchSize: nat := 100
  const ScheduleItemBatchSize: nat := 100

  /** The value slugs a program has for dimension `slug`, in order. */
  function ValueSlugs(pdvs: seq<Pdv>, slug: string): (vs: seq<string>)
    ensures |vs| <= |pdvs|
  {
    if pdvs == [] then []
    else
      var last := pdvs[|pdvs| - 1];
      ValueSlugs(pdvs[..|pdvs| - 1], slug) + (if last.dimensionSlug == slug then [last.value.slug] else [])
  }

  /** Every event dimension is a key, in event order, holding its value slugs; there are no other keys. */
  ghost predicate DimensionsOf(d: Dict<string, seq<string>>, eventSlugs: seq<string>, pdvs: seq<Pdv>) {
    && Keys(d) == Dedup(eventSlugs)
    && forall k :: k in eventSlugs ==> Get(d, k) == Some(ValueSlugs(pdvs, k))
  }

  predicate KnownDimension(eventSlugs: seq<string>, pdv: Pdv) {
    pdv.dimensionSlug in eventSlugs
  }

  function DimensionPairs(eventSlugs: seq<string>, pdvs: seq<Pdv>): (ps: seq<(string, seq<string>)>)
    ensures |ps| == |eventSlugs|
    ensures forall i :: 0 <= i < |eventSlugs| ==> ps[i] == (eventSlugs[i], ValueSlugs(pdvs, eventSlugs[i]))
  {
    seq(|eventSlugs|, i requires 0 <= i < |eventSlugs| => (eventSlugs[i], ValueSlugs(pdvs, eventSlugs[i])))
  }

  /** The dimension map `_build_dimensions` produces, as a value. */
  function ExpectedDimensions(eventSlugs: seq<string>, pdvs: seq<Pdv>): Dict<string, seq<string>> {
    FromPairs(DimensionPairs(eventSlugs, pdvs))
  }

  /** The expected map is the only one that has the event's dimensions as keys and their value slugs as values. */
  lemma ExpectedDimensionsUnique(d: Dict<string, seq<string>>, eventSlugs: seq<string>, pdvs: seq<Pdv>)
    ensures DimensionsOf(ExpectedDimensions(eventSlugs, pdvs), eventSlugs, pdvs)
    ensures DimensionsOf(d, eventSlugs, pdvs) ==> d == ExpectedDimensions(eventSlugs, pdvs)
  {
    var ps := DimensionPairs(eventSlugs, pdvs);
    var e := FromPairs(ps);
    FromPairsKeys(ps);
    assert Keys(ps) == eventSlugs;
    DedupElements(eventSlugs);
    forall k | k in eventSlugs ensures Get(e, k) == Some(ValueSlugs(pdvs, k)) {
      FromPairsGet(ps, k);
    }
    if DimensionsOf(d, eventSlugs, pdvs) {
      DictExtensionality(d, e);
    }
  }

  /** `{dimension.slug: [] for dimension in ...}`. */
  function EmptyLists(eventSlugs: seq<string>): (ps: seq<(string, seq<string>)>)
    ensures |ps| == |eventSlugs|
    ensures forall i :: 0 <= i < |eventSlugs| ==> ps[i] == (eventSlugs[i], [])
  {
    seq(|eventSlugs|, i requires 0 <= i < |eventSlugs| => (eventSlugs[i], []))
  }

  /** The dimensions of the initial dict: every event dimension with an empty list. */
  lemma EmptyListsDict(eventSlugs: seq<string>)
    ensures DimensionsOf(FromPairs(EmptyLists(eventSlugs)), eventSlugs, [])
  {
    var ps := EmptyLists(eventSlugs);
    FromPairsKeys(ps);
    assert Keys(ps) == eventSlugs;
    forall k | k in eventSlugs ensures Get(FromPairs(ps), k) == Some([]) {
      FromPairsGet(ps, k);
      var i :| 0 <= i < |eventSlugs| && eventSlugs[i] == k;
      assert ps[i].0 == k;
    }
  }

  /**
   * `_build_dimensions`. Fails with KeyError at the first value whose
   * dimension the event does not have; otherwise the result maps every event
   * dimension to its value slugs in order.
   */
  method BuildDimensions(eventSlugs: seq<string>, pdvs: seq<Pdv>) returns (r: Result<Dict<string, seq<string>>, ProgramError>)
    ensures r.Failure? <==> exists i :: 0 <= i < |pdvs| && pdvs[i].dimensionSlug !in eventSlugs
    ensures r.Failure? ==> exists i :: (0 <= i < |pdvs| && r.error == KeyError(pdvs[i].dimensionSlug)
      && pdvs[i].dimensionSlug !in eventSlugs && forall j :: 0 <= j < i ==> pdvs[j].dimensionSlug in eventSlugs)
    ensures r.Success? ==> r.value == ExpectedDimensions(eventSlugs, pdvs)
  {
    var dimensions := FromPairs(EmptyLists(eventSlugs));
    EmptyListsDict(eventSlugs);
    assert pdvs[..0] == [];
    for i := 0 to |pdvs|
      invariant DimensionsOf(dimensions, eventSlugs, pdvs[..i])
      invariant forall j :: 0 <= j < i ==> KnownDimension(eventSlugs, pdvs[j])
    {
      var slug := pdvs[i].dimensionSlug;
      var current := Get(dimensions, slug);
      DimensionKey(dimensions, eventSlugs, pdvs[..i], slug);
      if current.None? {
        return Failure(KeyError(slug));
      }
      assert KnownDimension(eventSlugs, pdvs[i]);
      AppendValue(dimensions, eventSlugs, pdvs, i);
      dimensions := Put(dimensions, slug, current.value + [pdvs[i].value.slug]);
      assert forall j :: 0 <= j < i + 1 ==> KnownDimension(eventSlugs, pdvs[j]) by {
        forall j | 0 <= j < i + 1 ensures KnownDimension(eventSlugs, pdvs[j]) {
          if j == i { assert KnownDimension(eventSlugs, pdvs[i]); }
        }
      }
    }
    assert pdvs[..|pdvs|] == pdvs;
    ExpectedDimensionsUnique(dimensions, eventSlugs, pdvs);
    return Success(dimensions);
  }

  /** The dict has a key exactly for the event's dimensions. */
  lemma DimensionKey(d: Dict<string, seq<string>>, eventSlugs: seq<string>, pdvs: seq<Pdv>, slug: string)
    requires DimensionsOf(d, eventSlugs, pdvs)
    ensures Get(d, slug).None? <==> slug !in eventSlugs
  {
    DedupElements(eventSlugs);
  }

  /** `dimensions[pdv.dimension.slug].append(pdv.value.slug)` keeps the dict describing one more value. */
  lemma AppendValue(d: Dict<string, seq<string>>, eventSlugs: seq<string>, pdvs: seq<Pdv>, i: nat)
    requires i < |pdvs|
    requires DimensionsOf(d, eventSlugs, pdvs[..i])
    requires pdvs[i].dimensionSlug in eventSlugs
    ensures Get(d, pdvs[i].dimensionSlug).Some?
    ensures DimensionsOf(Put(d, pdvs[i].dimensionSlug, Get(d, pdvs[i].dimensionSlug).value + [pdvs[i].value.slug]),
                         eventSlugs, pdvs[..i + 1])
  {
    var slug := pdvs[i].dimensionSlug;
    var updated := Get(d, slug).value + [pdvs[i].value.slug];
    var d' := Put(d, slug, updated);
    DedupElements(eventSlugs);
    PutKeys(d, slug, updated);
    assert pdvs[..i + 1][..i] == pdvs[..i];
    forall k | k in eventSlugs ensures Get(d', k) == Some(ValueSlugs(pdvs[..i + 1], k)) {
      PutGet(d, slug, updated, k);
      var prefix := pdvs[..i + 1];
      assert prefix[..|prefix| - 1] == pdvs[..i] && prefix[|prefix| - 1] == pdvs[i];
      if k == slug {
        assert ValueSlugs(prefix, k) == ValueSlugs(pdvs[..i], k) + [pdvs[i].value.slug];
      } else {
        assert ValueSlugs(prefix, k) == ValueSlugs(pdvs[..i], k) + [];
        assert ValueSlugs(pdvs[..i], k) + [] == ValueSlugs(pdvs[..i], k);
      }
    }
  }

  // _build_location

  /** The titles gathered so far for `lang`: `localized_locations.get(lang, set())`. */
  function TitlesAt(m: map<string, set<string>>, lang: string): set<string> {
    if lang in m then m[lang] else {}
  }

  /** `localized_locations.setdefault(lang, set()).add(title)` for each non-empty title, in order. */
  function AddTitles(m: map<string, set<string>>, title: Dict<string, string>): map<string, set<string>> {
    if title == [] then m
    else
      var m' := AddTitles(m, title[..|title| - 1]);
      var (lang, t) := title[|title| - 1];
      if t == "" then m' else m'[lang := TitlesAt(m', lang) + {t}]
  }

  /** The location titles of all values of dimension `loc`, by language. */
  function Locations(pdvs: seq<Pdv>, loc: string): map<string, set<string>> {
    if pdvs == [] then map[]
    else
      var init := Locations(pdvs[..|pdvs| - 1], loc);
      var last := pdvs[|pdvs| - 1];
      if last.dimensionSlug == loc then AddTitles(init, last.value.title) else init
  }

  /** A value of dimension `loc` has the non-empty title `t` in language `lang`. */
  ghost predicate HasTitle(pdvs: seq<Pdv>, loc: string, lang: string, t: string) {
    t != "" && exists i, j :: (0 <= i < |pdvs| && pdvs[i].dimensionSlug == loc
      && 0 <= j < |pdvs[i].value.title| && pdvs[i].value.title[j] == (lang, t))
  }

  ghost predicate NoEmptySets(m: map<string, set<string>>) {
    forall lang :: lang in m ==> m[lang] != {}
  }

  lemma {:induction false} AddTitlesContent(m: map<string, set<string>>, title: Dict<string, string>, lang: string, t: string)
    requires NoEmptySets(m)
    ensures NoEmptySets(AddTitles(m, title))
    ensures t in TitlesAt(AddTitles(m, title), lang) <==>
      t in TitlesAt(m, lang) || (t != "" && exists j :: 0 <= j < |title| && title[j] == (lang, t))
  {
    if title != [] {
      var init := title[..|title| - 1];
      AddTitlesContent(m, init, lang, t);
      assert forall j :: 0 <= j < |init| ==> init[j] == title[j];
    }
  }

  lemma {:induction false} LocationsContent(pdvs: seq<Pdv>, loc: string, lang: string, t: string)
    ensures NoEmptySets(Locations(pdvs, loc))
    ensures t in TitlesAt(Locations(pdvs, loc), lang) <==> HasTitle(pdvs, loc, lang, t)
  {
    if pdvs != [] {
      var n := |pdvs| - 1;
      var init := pdvs[..n];
      LocationsContent(init, loc, lang, t);
      assert forall i :: 0 <= i < n ==> init[i] == pdvs[i];
      if pdvs[n].dimensionSlug == loc {
        AddTitlesContent(Locations(init, loc), pdvs[n].value.title, lang, t);
      }
      if HasTitle(pdvs, loc, lang, t) && !HasTitle(init, loc, lang, t) {
        var i, j :| 0 <= i < |pdvs| && pdvs[i].dimensionSlug == loc
          && 0 <= j < |pdvs[i].value.title| && pdvs[i].value.title[j] == (lang, t);
        assert i == n;
      }
    }
  }

  /**
   * The location map: a language is present exactly when some value of the
   * location dimension has a non-empty title in it, and it holds the set of
   * all such titles (repeated titles collapse); empty titles are skipped.
   */
  lemma LocationsMeaning(pdvs: seq<Pdv>, loc: string, lang: string)
    ensures lang in Locations(pdvs, loc) <==> exists t :: HasTitle(pdvs, loc, lang, t)
    ensures lang in Locations(pdvs, loc) ==>
      forall t :: t in Locations(pdvs, loc)[lang] <==> HasTitle(pdvs, loc, lang, t)
  {
    var m := Locations(pdvs, loc);
    forall t ensures t in TitlesAt(m, lang) <==> HasTitle(pdvs, loc, lang, t) {
      LocationsContent(pdvs, loc, lang, t);
    }
    LocationsContent(pdvs, loc, lang, "");
    if lang in m {
      var t :| t in m[lang];
      assert HasTitle(pdvs, loc, lang, t);
    }
  }

  /** `{lang: ... for lang, locations in localized_locations.items() if locations}`. */
  function DropEmpty(m: map<string, set<string>>): (r: map<string, set<string>>)
    ensures NoEmptySets(m) ==> r == m
  {
    map lang | lang in m && m[lang] != {} :: m[lang]
  }

  /** What `_build_location` computes for a program meta. */
  function LocationOf(meta: Meta, pdvs: seq<Pdv>): map<string, set<string>> {
    match meta.locationDimension
    case None => map[]
    case Some(loc) => Locations(pdvs, loc)
  }

  /**
   * `_build_location`. Without program meta it raises TypeError; without a
   * location dimension the map is empty; otherwise it is the location map of
   * that dimension's values.
   */
  method BuildLocation(meta: Option<Meta>, pdvs: seq<Pdv>) returns (r: Result<map<string, set<string>>, ProgramError>)
    ensures r.Failure? <==> meta.None?
    ensures r.Failure? ==> r.error == TypeError
    ensures r.Success? && meta.value.locationDimension.None? ==> r.value == map[]
    ensures r.Success? ==> r.value == LocationOf(meta.value, pdvs)
  {
    if meta.None? {
      return Failure(TypeError);
    }
    var localized: map<string, set<string>> := map[];
    if meta.value.locationDimension.Some? {
      var loc := meta.value.locationDimension.value;
      assert pdvs[..0] == [];
      for i := 0 to |pdvs|
        invariant localized == Locations(pdvs[..i], loc)
      {
        assert pdvs[..i + 1][..i] == pdvs[..i];
        if pdvs[i].dimensionSlug == loc {
          var title := pdvs[i].value.title;
          ghost var start := localized;
          assert title[..0] == [];
          for j := 0 to |title|
            invariant localized == AddTitles(start, title[..j])
          {
            assert title[..j + 1][..j] == title[..j];
            var (lang, t) := title[j];
            if t != "" {
              localized := localized[lang := TitlesAt(localized, lang) + {t}];
            }
          }
          assert title[..|title|] == title;
        }
      }
      assert pdvs[..|pdvs|] == pdvs;
      LocationsContent(pdvs, loc, "", "");
    }
    return Success(DropEmpty(localized));
  }

  /** `_get_color`: the colour of the first value that has one, else "". */
  function FirstColor(pdvs: seq<Pdv>): (c: string)
    ensures c == "" <==> forall i :: 0 <= i < |pdvs| ==> pdvs[i].value.color == ""
    ensures c != "" ==> exists i :: (0 <= i < |pdvs| && pdvs[i].value.color == c
      && forall j :: 0 <= j < i ==> pdvs[j].value.color == "")
  {
    if pdvs == [] then ""
    else if pdvs[0].value.color != "" then pdvs[0].value.color
    else
      var c := FirstColor(pdvs[1..]);
      assert c != "" ==> exists i :: (0 < i < |pdvs| && pdvs[i].value.color == c
        && forall j :: 0 <= j < i ==> pdvs[j].value.color == "") by {
        if c != "" {
          var i :| 0 <= i < |pdvs[1..]| && pdvs[1..][i].value.color == c
            && forall j :: 0 <= j < i ==> pdvs[1..][j].value.color == "";
          assert pdvs[i + 1].value.color == c;
          forall j | 0 <= j < i + 1 ensures pdvs[j].value.color == "" {
            if j > 0 { assert pdvs[j] == pdvs[1..][j - 1]; }
          }
        }
      }
      assert (forall i :: 0 <= i < |pdvs| ==> pdvs[i].value.color == "") <==>
        (forall i :: 0 <= i < |pdvs[1..]| ==> pdvs[1..][i].value.color == "") by {
        forall i | 0 < i < |pdvs| ensures pdvs[i] == pdvs[1..][i - 1] {}
      }
      c
  }

  // Schedule times

  /** The earliest start of the items, None when there are none (`order_by("start_time").first()`). */
  function EarliestStart(items: seq<ScheduleItem>): (r: Option<int>)
    ensures r.None? <==> items == []
    ensures r.Some? ==> (exists i :: 0 <= i < |items| && items[i].startTime == r.value)
    ensures r.Some? ==> forall i :: 0 <= i < |items| ==> r.value <= items[i].startTime
  {
    if items == [] then None
    else
      match EarliestStart(items[1..])
      case None => Some(items[0].startTime)
      case Some(t) =>
        assert items[1..][0] == items[1];
        Some(if items[0].startTime <= t then items[0].startTime else t)
  }

  /** The latest cached end of the items, None when there are none (`order_by("cached_end_time").last()`). */
  function LatestEnd(items: seq<ScheduleItem>): (r: Option<int>)
    ensures r.None? <==> items == []
    ensures r.Some? ==> (exists i :: 0 <= i < |items| && items[i].cachedEndTime == r.value)
    ensures r.Some? ==> forall i :: 0 <= i < |items| ==> items[i].cachedEndTime <= r.value
  {
    if items == [] then None
    else
      match LatestEnd(items[1..])
      case None => Some(items[0].cachedEndTime)
      case Some(t) =>
        assert items[1..][0] == items[1];
        Some(if t <= items[0].cachedEndTime then items[0].cachedEndTime else t)
  }

  /** The schedule items of `p` among all items `db` (`program.schedule_items`), in `db` order. */
  function ItemsOf(p: Program, db: seq<ScheduleItem>): (r: seq<ScheduleItem>)
    ensures forall i :: 0 <= i < |r| ==> r[i] in db && r[i].program == p
    ensures forall i :: 0 <= i < |db| && db[i].program == p ==> db[i] in r
  {
    if db == [] then []
    else
      var init := ItemsOf(p, db[..|db| - 1]);
      var it := db[|db| - 1];
      assert db == db[..|db| - 1] + [it];
      if it.program == p then init + [it] else init
  }

  /** Every value's dimension is an event dimension, and the event has program meta: the refresh cannot fail. */
  ghost predicate Refreshable(p: Program) {
    && (forall i :: 0 <= i < |p.dimensions| ==> KnownDimension(p.event.programDimensionSlugs, p.dimensions[i]))
    && p.event.programV2EventMeta.Some?
  }

  /** The three cached dimension fields of `p` hold what the build rules give. */
  ghost predicate DimensionsFresh(p: Program)
    reads p
  {
    && Refreshable(p)
    && p.cachedDimensions == ExpectedDimensions(p.event.programDimensionSlugs, p.dimensions)
    && p.cachedLocation == LocationOf(p.event.programV2EventMeta.value, p.dimensions)
    && p.cachedColor == FirstColor(p.dimensions)
  }

  /** The two cached time fields of `p`, taken together. */
  ghost function TimeFields(p: Program): (Option<int>, Option<int>)
    reads p
  {
    (p.cachedEarliestStartTime, p.cachedLatestEndTime)
  }

  /** The three cached dimension fields of `p`, taken together. */
  ghost function DimensionFields(p: Program): (Dict<string, seq<string>>, map<string, set<string>>, string)
    reads p
  {
    (p.cachedDimensions, p.cachedLocation, p.cachedColor)
  }

  /** `schedule_item.cached_location = location` for each item. */
  method SetCachedLocation(items: seq<ScheduleItem>, location: map<string, set<string>>)
    modifies items
    ensures forall i :: 0 <= i < |items| ==> items[i].cachedLocation == location
  {
    for k := 0 to |items|
      invariant forall i :: 0 <= i < k ==> items[i].cachedLocation == location
    {
      items[k].cachedLocation := location;
    }
  }

  class ScheduleItem {
    const program: Program
    const startTime: int
    const cachedEndTime: int
    var cachedLocation: map<string, set<string>>

    constructor (program: Program, startTime: int, cachedEndTime: int)
      ensures this.program == program && this.startTime == startTime && this.cachedEndTime == cachedEndTime
      ensures cachedLocation == map[]
    {
      this.program := program;
      this.startTime := startTime;
      this.cachedEndTime := cachedEndTime;
      cachedLocation := map[];
    }
  }

  class Program {
    const event: Event
    /** The program's dimension values (`self.dimensions.all()`), in query order. */
    const dimensions: seq<Pdv>
    var cachedDimensions: Dict<string, seq<string>>
    var cachedLocation: map<string, set<string>>
    var cachedColor: string
    var cachedEarliestStartTime: Option<int>
    var cachedLatestEndTime: Option<int>

    /** A program with its denormalised fields at their defaults. */
    constructor (event: Event, dimensions: seq<Pdv>)
      ensures this.event == event && this.dimensions == dimensions
      ensures cachedDimensions == [] && cachedLocation == map[] && cachedColor == ""
      ensures cachedEarliestStartTime == None && cachedLatestEndTime == None
    {
      this.event := event;
      this.dimensions := dimensions;
      cachedDimensions := [];
      cachedLocation := map[];
      cachedColor := "";
      cachedEarliestStartTime := None;
      cachedLatestEndTime := None;
    }

    /**
     * The three assignments of the refresh: dimensions, then location, then
     * colour, each from its build rule. A KeyError leaves everything as it
     * was; a TypeError comes after the dimensions have been assigned.
     */
    method AssignCachedDimensions() returns (r: Result<(), ProgramError>)
      modifies this
      ensures r.Success? <==> Refreshable(this)
      ensures r.Success? ==> DimensionsFresh(this)
      ensures r.Failure? && r.error.KeyError? ==> cachedDimensions == old(cachedDimensions)
      ensures r.Failure? && r.error.TypeError? ==> cachedDimensions == ExpectedDimensions(event.programDimensionSlugs, dimensions)
      ensures r.Failure? ==> (r.error.TypeError? <==> (event.programV2EventMeta.None?
        && forall i :: 0 <= i < |dimensions| ==> KnownDimension(event.programDimensionSlugs, dimensions[i])))
      ensures r.Failure? ==> cachedLocation == old(cachedLocation) && cachedColor == old(cachedColor)
      ensures cachedEarliestStartTime == old(cachedEarliestStartTime) && cachedLatestEndTime == old(cachedLatestEndTime)
    {
      var dims := BuildDimensions(event.programDimensionSlugs, dimensions);
      if dims.Failure? {
        ghost var i :| 0 <= i < |dimensions| && dimensions[i].dimensionSlug !in event.programDimensionSlugs;
        assert !KnownDimension(event.programDimensionSlugs, dimensions[i]);
        return Failure(dims.error);
      }
      cachedDimensions := dims.value;
      var location := BuildLocation(event.programV2EventMeta, dimensions);
      if location.Failure? {
        assert location.error == TypeError && event.programV2EventMeta.None?;
        return Failure(location.error);
      }
      cachedLocation := location.value;
      cachedColor := FirstColor(dimensions);
      return Success(());
    }

    /**
     * `refresh_cached_dimensions`: the program's denormalised dimension
     * fields are rebuilt and its schedule items get its new location; no
     * other item changes.
     */
    method RefreshCachedDimensions(db: seq<ScheduleItem>) returns (r: Result<(), ProgramError>)
      modifies this, db
      ensures r.Success? <==> Refreshable(this)
      ensures r.Success? ==> DimensionsFresh(this)
      ensures r.Success? ==> forall it :: it in ItemsOf(this, db) ==> it.cachedLocation == cachedLocation
      ensures forall it :: it in db && (r.Failure? || it.program != this) ==> it.cachedLocation == old(it.cachedLocation)
      ensures r.Failure? && r.error.KeyError? ==> cachedDimensions == old(cachedDimensions)
      ensures r.Failure? ==> cachedLocation == old(cachedLocation) && cachedColor == old(cachedColor)
      ensures cachedEarliestStartTime == old(cachedEarliestStartTime) && cachedLatestEndTime == old(cachedLatestEndTime)
    {
      r := AssignCachedDimensions();
      if r.Failure? {
        return;
      }
      SetCachedLocation(ItemsOf(this, db), cachedLocation);
    }

    /**
     * `refresh_cached_fields`: dimensions first, then times; an error in the
     * first step propagates and the times are not touched.
     */
    method RefreshCachedFields(db: seq<ScheduleItem>) returns (r: Result<(), ProgramError>)
      modifies this, db
      ensures r.Success? <==> Refreshable(this)
      ensures r.Success? ==> DimensionsFresh(this) && TimesFresh(this, db)
      ensures r.Success? ==> forall it :: it in ItemsOf(this, db) ==> it.cachedLocation == cachedLocation
      ensures forall it :: it in db && (r.Failure? || it.program != this) ==> it.cachedLocation == old(it.cachedLocation)
      ensures r.Failure? ==> cachedEarliestStartTime == old(cachedEarliestStartTime) && cachedLatestEndTime == old(cachedLatestEndTime)
    {
      r := RefreshCachedDimensions(db);
      if r.Failure? {
        return;
      }
      RefreshCachedTimes(db);
    }

    /** `refresh_cached_times`: the earliest start and the latest end of the program's schedule items. */
    method RefreshCachedTimes(db: seq<ScheduleItem>)
      modifies this
      ensures cachedEarliestStartTime == EarliestStart(ItemsOf(this, db))
      ensures cachedLatestEndTime == LatestEnd(ItemsOf(this, db))
      ensures cachedDimensions == old(cachedDimensions) && cachedLocation == old(cachedLocation)
      ensures cachedColor == old(cachedColor)
    {
      var items := ItemsOf(this, db);
      cachedEarliestStartTime := EarliestStart(items);
      cachedLatestEndTime := LatestEnd(items);
    }
  }

  /** `ScheduleItem.objects.filter(program__in=queryset)`, in `db` order. */
  function ItemsOfAll(programs: seq<Program>, db: seq<ScheduleItem>): (r: seq<ScheduleItem>)
    ensures forall i :: 0 <= i < |r| ==> r[i] in db && r[i].program in programs
    ensures forall i :: 0 <= i < |db| && db[i].program in programs ==> db[i] in r
  {
    if db == [] then []
    else
      var init := ItemsOfAll(programs, db[..|db| - 1]);
      var it := db[|db| - 1];
      assert db == db[..|db| - 1] + [it];
      if it.program in programs then init + [it] else init
  }

  /** One batch of programs: each gets its dimension fields assigned, stopping at the first error. */
  method AssignBatch(batch: seq<Program>) returns (r: Result<(), ProgramError>)
    modifies batch
    ensures r.Success? <==> forall i :: 0 <= i < |batch| ==> Refreshable(batch[i])
    ensures r.Success? ==> forall i :: 0 <= i < |batch| ==> DimensionsFresh(batch[i])
    ensures forall i :: 0 <= i < |batch| ==> TimeFields(batch[i]) == old(TimeFields(batch[i]))
  {
    for j := 0 to |batch|
      invariant forall i :: 0 <= i < j ==> DimensionsFresh(batch[i])
      invariant forall i :: 0 <= i < |batch| ==> TimeFields(batch[i]) == old(TimeFields(batch[i]))
    {
      label step:
      var res := batch[j].AssignCachedDimensions();
      if res.Failure? {
        assert !Refreshable(batch[j]);
        return Failure(res.error);
      }
      forall i | 0 <= i < j + 1 ensures DimensionsFresh(batch[i]) {
        if batch[i] != batch[j] {
          assert old@step(DimensionsFresh(batch[i]));
        }
      }
    }
    return Success(());
  }

  /** One batch of schedule items: each copies its program's location. */
  method CopyBatch(batch: seq<ScheduleItem>)
    modifies batch
    ensures forall i :: 0 <= i < |batch| ==> batch[i].cachedLocation == batch[i].program.cachedLocation
  {
    for j := 0 to |batch|
      invariant forall i :: 0 <= i < j ==> batch[i].cachedLocation == batch[i].program.cachedLocation
    {
      batch[j].cachedLocation := batch[j].program.cachedLocation;
    }
  }

  /** The program pass of `refresh_cached_dimensions_qs`, batch by batch. */
  method AssignPrograms(programs: seq<Program>) returns (r: Result<(), ProgramError>)
    modifies programs
    ensures r.Success? <==> forall i :: 0 <= i < |programs| ==> Refreshable(programs[i])
    ensures r.Success? ==> forall i :: 0 <= i < |programs| ==> DimensionsFresh(programs[i])
    ensures forall i :: 0 <= i < |programs| ==> TimeFields(programs[i]) == old(TimeFields(programs[i]))
  {
    var pages: seq<seq<Program>> := Batches(programs, ProgramBatchSize);
    FlattenBatches(programs, ProgramBatchSize);
    for page := 0 to |pages|
      invariant forall p: Program :: p in Flatten(pages[..page]) ==> DimensionsFresh(p)
      invariant forall i :: 0 <= i < |programs| ==> TimeFields(programs[i]) == old(TimeFields(programs[i]))
    {
      var batch: seq<Program> := pages[page];
      forall j | 0 <= j < |batch| ensures batch[j] in programs {
        FlattenMember(pages, page, batch[j]);
      }
      ghost var done := Flatten(pages[..page]);
      label before:
      var res := AssignBatch(batch);
      if res.Failure? {
        return Failure(res.error);
      }
      FlattenSnoc(pages, page);
      forall p: Program | p in done + batch ensures DimensionsFresh(p) {
        if p in batch {
          var i :| 0 <= i < |batch| && batch[i] == p;
        } else {
          assert p in done;
          FlattenPrefixMember(pages, page, p);
          assert old@before(DimensionsFresh(p));
        }
      }
    }
    assert pages[..|pages|] == pages;
    forall i | 0 <= i < |programs| ensures DimensionsFresh(programs[i]) {
      assert programs[i] in Flatten(pages);
    }
    return Success(());
  }

  /** The schedule item pass of `refresh_cached_dimensions_qs`, batch by batch. */
  method CopyLocations(programs: seq<Program>, db: seq<ScheduleItem>)
    modifies db
    ensures forall it :: it in db && it.program in programs ==> it.cachedLocation == it.program.cachedLocation
    ensures forall it :: it in db && it.program !in programs ==> it.cachedLocation == old(it.cachedLocation)
  {
    var items := ItemsOfAll(programs, db);
    var itemPages: seq<seq<ScheduleItem>> := Batches(items, ScheduleItemBatchSize);
    FlattenBatches(items, ScheduleItemBatchSize);
    for page := 0 to |itemPages|
      modifies items
      invariant forall it: ScheduleItem :: it in Flatten(itemPages[..page]) ==> it.cachedLocation == it.program.cachedLocation
      invariant forall it :: it in db && it.program !in programs ==> it.cachedLocation == old(it.cachedLocation)
    {
      var batch: seq<ScheduleItem> := itemPages[page];
      forall j | 0 <= j < |batch| ensures batch[j] in items {
        FlattenMember(itemPages, page, batch[j]);
      }
      ghost var done := Flatten(itemPages[..page]);
      label before:
      CopyBatch(batch);
      FlattenSnoc(itemPages, page);
      forall it: ScheduleItem | it in done + batch ensures it.cachedLocation == it.program.cachedLocation {
        if it in batch {
          var i :| 0 <= i < |batch| && batch[i] == it;
        } else {
          assert it in done;
          FlattenPrefixMember(itemPages, page, it);
          assert old@before(it.cachedLocation == it.program.cachedLocation);
        }
      }
    }
    assert itemPages[..|itemPages|] == itemPages;
  }

  /**
   * `refresh_cached_dimensions_qs`: every program, batch by batch, gets its
   * dimension fields rebuilt; then every schedule item of those programs,
   * batch by batch, copies its program's new location. Items of other
   * programs and the cached times are left alone.
   */
  method RefreshCachedDimensionsQs(programs: seq<Program>, db: seq<ScheduleItem>) returns (r: Result<(), ProgramError>)
    modifies programs, db
    ensures r.Success? <==> forall i :: 0 <= i < |programs| ==> Refreshable(programs[i])
    ensures r.Success? ==> forall i :: 0 <= i < |programs| ==> DimensionsFresh(programs[i])
    ensures r.Success? ==> forall it :: it in db && it.program in programs ==> it.cachedLocation == it.program.cachedLocation
    ensures forall it :: it in db && (r.Failure? || it.program !in programs) ==> it.cachedLocation == old(it.cachedLocation)
    ensures forall i :: 0 <= i < |programs| ==> TimeFields(programs[i]) == old(TimeFields(programs[i]))
  {
    r := AssignPrograms(programs);
    if r.Failure? {
      return;
    }
    CopyLocations(programs, db);
  }

  /** The two cached time fields of `p` hold the bounds of its schedule items in `db`. */
  ghost predicate TimesFresh(p: Program, db: seq<ScheduleItem>)
    reads p
  {
    && p.cachedEarliestStartTime == EarliestStart(ItemsOf(p, db))
    && p.cachedLatestEndTime == LatestEnd(ItemsOf(p, db))
  }

  /** One batch of programs: each gets its cached times recomputed. */
  method TimesBatch(batch: seq<Program>, db: seq<ScheduleItem>)
    modifies batch
    ensures forall i :: 0 <= i < |batch| ==> TimesFresh(batch[i], db)
    ensures forall i :: 0 <= i < |batch| ==> DimensionFields(batch[i]) == old(DimensionFields(batch[i]))
  {
    for j := 0 to |batch|
      invariant forall i :: 0 <= i < j ==> TimesFresh(batch[i], db)
      invariant forall i :: 0 <= i < |batch| ==> DimensionFields(batch[i]) == old(DimensionFields(batch[i]))
    {
      label step:
      batch[j].RefreshCachedTimes(db);
      forall i | 0 <= i < j + 1 ensures TimesFresh(batch[i], db) {
        if batch[i] != batch[j] {
          assert old@step(TimesFresh(batch[i], db));
        }
      }
    }
  }

  /**
   * `refresh_cached_times_qs`: every program, batch by batch, gets the
   * earliest start and latest end of its schedule items; the dimension
   * fields are left alone.
   */
  method RefreshCachedTimesQs(programs: seq<Program>, db: seq<ScheduleItem>)
    modifies programs
    ensures forall i :: 0 <= i < |programs| ==> TimesFresh(programs[i], db)
    ensures forall i :: 0 <= i < |programs| ==> DimensionFields(programs[i]) == old(DimensionFields(programs[i]))
  {
    var pages: seq<seq<Program>> := Batches(programs, ProgramBatchSize);
    FlattenBatches(programs, ProgramBatchSize);
    for page := 0 to |pages|
      invariant forall p: Program :: p in Flatten(pages[..page]) ==> TimesFresh(p, db)
      invariant forall i :: 0 <= i < |programs| ==> DimensionFields(programs[i]) == old(DimensionFields(programs[i]))
    {
      var batch: seq<Program> := pages[page];
      forall j | 0 <= j < |batch| ensures batch[j] in programs {
        FlattenMember(pages, page, batch[j]);
      }
      ghost var done := Flatten(pages[..page]);
      label before:
      TimesBatch(batch, db);
      FlattenSnoc(pages, page);
      forall p: Program | p in done + batch ensures TimesFresh(p, db) {
        if p in batch {
          var i :| 0 <= i < |batch| && batch[i] == p;
        } else {
          assert p in done;
          FlattenPrefixMember(pages, page, p);
          assert old@before(TimesFresh(p, db));
        }
      }
    }
    assert pages[..|pages|] == pages;
    forall i | 0 <= i < |programs| ensures TimesFresh(programs[i], db) {
      assert programs[i] in Flatten(pages);
    }
  }

  /**
   * `refresh_cached_fields_qs`: the dimension pass over the whole queryset,
   * then the time pass; an error in the dimension pass propagates before any
   * time is refreshed.
   */
  method RefreshCachedFieldsQs(programs: seq<Program>, db: seq<ScheduleItem>) returns (r: Result<(), ProgramError>)
    modifies programs, db
    ensures r.Success? <==> forall i :: 0 <= i < |programs| ==> Refreshable(programs[i])
    ensures r.Success? ==> forall i :: 0 <= i < |programs| ==> DimensionsFresh(programs[i]) && TimesFresh(programs[i], db)
    ensures r.Success? ==> forall it :: it in db && it.program in programs ==> it.cachedLocation == it.program.cachedLocation
    ensures forall it :: it in db && (r.Failure? || it.program !in programs) ==> it.cachedLocation == old(it.cachedLocation)
    ensures r.Failure? ==> forall i :: 0 <= i < |programs| ==> TimeFields(programs[i]) == old(TimeFields(programs[i]))
  {
    r := RefreshCachedDimensionsQs(programs, db);
    if r.Failure? {
      return;
    }
    RefreshCachedTimesQs(programs, db);
  }
}
