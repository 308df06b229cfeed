/**
 * `Schema`: the set of field mappers of an index, the analyzer registry with its
 * cache, the per-field analyzer composed once at construction, and the
 * resolution of dotted field paths to mappers.
 */
module Schemas {
  import opened Results
  import opened JavaStrings
  import opened Mapping

  /** A Lucene text analyzer; the schema only stores and hands these out. */
  type Analyzer

  /** The analyzers a schema falls back on when a name is not in its own map.
      `preBuiltDefault` is `PreBuiltAnalyzers.DEFAULT.get()` and `preBuilt(name)`
      is `PreBuiltAnalyzers.get(name)`. `onClasspath(name)` says whether
      `new ClasspathAnalyzerBuilder(name).analyzer()` returns rather than throws.
      When it returns it builds a new analyzer: `instantiate(name, k)` is the one
      built by a schema's k-th such build, so two builds need not give the same
      analyzer. */
  datatype AnalyzerSources = AnalyzerSources(
    preBuiltDefault: Analyzer,
    preBuilt: string -> Option<Analyzer>,
    onClasspath: string -> bool,
    instantiate: (string, nat) -> Analyzer)

  /** `PerFieldAnalyzerWrapper(defaultAnalyzer, fieldAnalyzers)`. */
  datatype PerFieldAnalyzer = PerFieldAnalyzer(defaultAnalyzer: Analyzer, fieldAnalyzers: map<string, Analyzer>)

  const BlankNameMessage: string := "Not null nor empty analyzer name required"

  function NotFoundMessage(name: string): string {
    "Not found analyzer: " + name
  }

  /** Some stage knows the (non-blank) name: the map, the prebuilt analyzers or
      the classpath. */
  predicate Resolvable(analyzers: map<string, Analyzer>, sources: AnalyzerSources, name: Option<string>) {
    && !IsBlank(name)
    && (name.value in analyzers || sources.preBuilt(name.value).Some? || sources.onClasspath(name.value))
  }

  /** The message `getAnalyzer(name)` throws with when it cannot resolve the name. */
  function ResolutionFailure(name: Option<string>): string {
    if IsBlank(name) then BlankNameMessage else NotFoundMessage(name.value)
  }

  /** Resolving the name builds a new analyzer from the classpath. */
  predicate Instantiates(analyzers: map<string, Analyzer>, sources: AnalyzerSources, name: Option<string>) {
    && !IsBlank(name) && name.value !in analyzers
    && sources.preBuilt(name.value).None? && sources.onClasspath(name.value)
  }

  /** What `getAnalyzer(name)` returns when the schema's analyzer map is
      `analyzers` and it has built `built` analyzers from the classpath so far. */
  function ResolveAnalyzer(analyzers: map<string, Analyzer>, sources: AnalyzerSources, name: Option<string>, built: nat): (r: Result<Analyzer>)
    ensures r.Ok? <==> Resolvable(analyzers, sources, name)
    ensures r.Failure? ==> r.message == ResolutionFailure(name)
  {
    if IsBlank(name) then Failure(BlankNameMessage)
    else if name.value in analyzers then Ok(analyzers[name.value])
    else if sources.preBuilt(name.value).Some? then Ok(sources.preBuilt(name.value).value)
    else if sources.onClasspath(name.value) then Ok(sources.instantiate(name.value, built))
    else Failure(NotFoundMessage(name.value))
  }

  /** The first of the three stages that yields an analyzer decides; a blank name,
      or a name no stage knows, is an error. */
  lemma ResolutionOrder(analyzers: map<string, Analyzer>, sources: AnalyzerSources, name: Option<string>, built: nat)
    ensures IsBlank(name) ==> ResolveAnalyzer(analyzers, sources, name, built) == Failure(BlankNameMessage)
    ensures !IsBlank(name) && name.value in analyzers ==>
      ResolveAnalyzer(analyzers, sources, name, built) == Ok(analyzers[name.value])
    ensures !IsBlank(name) && name.value !in analyzers && sources.preBuilt(name.value).Some? ==>
      ResolveAnalyzer(analyzers, sources, name, built) == Ok(sources.preBuilt(name.value).value)
    ensures !IsBlank(name) && name.value !in analyzers && sources.preBuilt(name.value).None? ==>
      ResolveAnalyzer(analyzers, sources, name, built) ==
        if sources.onClasspath(name.value) then Ok(sources.instantiate(name.value, built))
        else Failure(NotFoundMessage(name.value))
  {
  }

  /** The analyzer stored under a non-blank name in the map. */
  ghost predicate CachedUnder(analyzers: map<string, Analyzer>, name: Option<string>, a: Analyzer) {
    !IsBlank(name) && name.value in analyzers && analyzers[name.value] == a
  }

  /** `cache` is the explicit map plus analyzers cached under names they
      resolved to: each cached entry is an answer that resolving the name through
      the explicit map gives, for some number of earlier classpath builds. */
  ghost predicate Memoizes(cache: map<string, Analyzer>, explicit: map<string, Analyzer>, sources: AnalyzerSources) {
    && (forall k :: k in explicit ==> k in cache && cache[k] == explicit[k])
    && (forall k :: k in cache && k !in explicit ==>
          exists c: nat :: ResolveAnalyzer(explicit, sources, Some(k), c) == Ok(cache[k]))
  }

  /** Memoisation never changes whether a name resolves, nor the message of a
      failure. A name not yet cached resolves as through the explicit map, and
      every answer through the cache is one the explicit map gives after some
      number of classpath builds. */
  lemma MemoizedResolution(cache: map<string, Analyzer>, explicit: map<string, Analyzer>, sources: AnalyzerSources,
                           name: Option<string>, built: nat)
    requires Memoizes(cache, explicit, sources)
    ensures Resolvable(cache, sources, name) <==> Resolvable(explicit, sources, name)
    ensures !IsBlank(name) && name.value !in cache ==>
      ResolveAnalyzer(cache, sources, name, built) == ResolveAnalyzer(explicit, sources, name, built)
    ensures ResolveAnalyzer(cache, sources, name, built).Ok? ==>
      exists c: nat :: ResolveAnalyzer(explicit, sources, name, c) == ResolveAnalyzer(cache, sources, name, built)
  {
    if !IsBlank(name) && name.value in cache {
      var n := name.value;
      if n in explicit {
        assert ResolveAnalyzer(explicit, sources, name, built) == ResolveAnalyzer(cache, sources, name, built);
      } else {
        var c: nat :| ResolveAnalyzer(explicit, sources, Some(n), c) == Ok(cache[n]);
        assert ResolveAnalyzer(explicit, sources, name, c) == ResolveAnalyzer(cache, sources, name, built);
      }
    } else if !IsBlank(name) {
      assert ResolveAnalyzer(explicit, sources, name, built) == ResolveAnalyzer(cache, sources, name, built);
    }
  }

  /** Caching a name under what it resolves to keeps the memoisation sound, and
      the name is then cached under that analyzer. */
  lemma CacheResolved(cache: map<string, Analyzer>, explicit: map<string, Analyzer>, sources: AnalyzerSources,
                      name: string, a: Analyzer, built: nat)
    requires Memoizes(cache, explicit, sources)
    requires ResolveAnalyzer(cache, sources, Some(name), built) == Ok(a)
    ensures Memoizes(cache[name := a], explicit, sources)
    ensures CachedUnder(cache[name := a], Some(name), a)
  {
    MemoizedResolution(cache, explicit, sources, Some(name), built);
    var next := cache[name := a];
    forall k | k in next && k !in explicit
      ensures exists c: nat :: ResolveAnalyzer(explicit, sources, Some(k), c) == Ok(next[k])
    {
      if k == name {
        var c: nat :| ResolveAnalyzer(explicit, sources, Some(name), c) == ResolveAnalyzer(cache, sources, Some(name), built);
        assert ResolveAnalyzer(explicit, sources, Some(k), c) == Ok(next[k]);
      }
    }
  }

  /** A cached name resolves to its cached analyzer, however many analyzers the
      classpath has built. */
  lemma CachedResolves(cache: map<string, Analyzer>, sources: AnalyzerSources, name: Option<string>, a: Analyzer, built: nat)
    requires CachedUnder(cache, name, a)
    ensures ResolveAnalyzer(cache, sources, name, built) == Ok(a)
    ensures !Instantiates(cache, sources, name)
  {
  }

  /** The iteration order of a hash map's entries: some order of its keys, each
      exactly once. */
  method KeyOrder<V>(m: map<string, V>) returns (order: seq<string>)
    ensures forall i, j :: 0 <= i < j < |order| ==> order[i] != order[j]
    ensures forall k :: k in m <==> k in order
  {
    order := [];
    var rest := m.Keys;
    while rest != {}
      invariant forall k :: k in m <==> k in order || k in rest
      invariant forall k :: k in rest ==> k !in order
      invariant forall i, j :: 0 <= i < j < |order| ==> order[i] != order[j]
      decreases rest
    {
      var k :| k in rest;
      order := order + [k];
      rest := rest - {k};
    }
  }

  /** The number of components of the longest candidate of `field` with at most
      n components that is a key of `mappers`, or 0 when none is. */
  function CandidateAmongFirst(mappers: map<string, Mapper>, field: string, n: nat): (k: nat)
    requires n <= |JavaSplit(field)|
    ensures k <= n
    ensures 0 < k ==> DotPrefix(field, k) in mappers
    ensures forall j :: k < j <= n ==> DotPrefix(field, j) !in mappers
  {
    if n == 0 then 0
    else if DotPrefix(field, n) in mappers then n
    else CandidateAmongFirst(mappers, field, n - 1)
  }

  /** The mapper of the candidates of `field` with at most n components, longest first. */
  function MapperAmongFirst(mappers: map<string, Mapper>, field: string, n: nat): Option<Mapper>
    requires n <= |JavaSplit(field)|
  {
    var k := CandidateAmongFirst(mappers, field, n);
    if k == 0 then None else Some(mappers[DotPrefix(field, k)])
  }

  /** What `getMapper(field)` returns: the mapper registered under the longest
      candidate of `field` (its first components, joined with '.'). */
  function LongestPrefixMapper(mappers: map<string, Mapper>, field: string): Option<Mapper> {
    MapperAmongFirst(mappers, field, |JavaSplit(field)|)
  }

  /** The inner loop of `getMapper`: the first i + 1 components, with a '.'
      after each but the last. */
  method JoinComponents(components: seq<string>, i: nat) returns (sb: string)
    requires i < |components|
    ensures sb == JoinDots(components[..i + 1])
  {
    sb := "";
    var j := 0;
    while j <= i
      invariant 0 <= j <= i + 1
      invariant j == 0 ==> sb == ""
      invariant 0 < j <= i ==> sb == JoinDots(components[..j]) + "."
      invariant j == i + 1 ==> sb == JoinDots(components[..j])
    {
      assert components[..j + 1][..j] == components[..j];
      sb := sb + components[j];
      if j < i {
        sb := sb + ".";
      }
      j := j + 1;
    }
  }

  /** The longest candidate is the only one that is a key with no longer key
      after it: whatever count has these two properties is the one found. */
  lemma {:induction false} CandidateAmongFirstIs(mappers: map<string, Mapper>, field: string, n: nat, k: nat)
    requires k <= n <= |JavaSplit(field)|
    requires 0 < k ==> DotPrefix(field, k) in mappers
    requires forall j :: k < j <= n ==> DotPrefix(field, j) !in mappers
    ensures CandidateAmongFirst(mappers, field, n) == k
    decreases n
  {
    if k < n {
      CandidateAmongFirstIs(mappers, field, n - 1, k);
    }
  }

  /** `getMapper` finds the longest candidate present in the map: it returns null
      exactly when no candidate is a key, and otherwise a value of the map stored
      under a candidate that no longer candidate beats. */
  lemma LongestPrefixMapperSpec(mappers: map<string, Mapper>, field: string)
    ensures LongestPrefixMapper(mappers, field).None? <==>
      forall i :: 1 <= i <= |JavaSplit(field)| ==> DotPrefix(field, i) !in mappers
    ensures LongestPrefixMapper(mappers, field).Some? ==>
      && LongestPrefixMapper(mappers, field).value in mappers.Values
      && exists i :: (
        && 1 <= i <= |JavaSplit(field)| && DotPrefix(field, i) in mappers
        && LongestPrefixMapper(mappers, field).value == mappers[DotPrefix(field, i)]
        && forall j :: i < j <= |JavaSplit(field)| ==> DotPrefix(field, j) !in mappers)
  {
    var k := CandidateAmongFirst(mappers, field, |JavaSplit(field)|);
    if k == 0 {
      assert LongestPrefixMapper(mappers, field).None?;
    } else {
      assert DotPrefix(field, k) in mappers;
    }
  }

  /** A field that is itself a key (and does not end with a '.') gets its own mapper. */
  lemma ExactMatchWins(mappers: map<string, Mapper>, field: string)
    requires field in mappers
    requires field == "" || field[|field| - 1] != '.'
    ensures LongestPrefixMapper(mappers, field) == Some(mappers[field])
  {
    FieldIsLongestCandidate(field);
  }

  /** A field ending with '.' is never looked up under its own name, because the
      split drops the trailing empty piece: whatever is stored under the field
      itself, `getMapper` answers as if that entry were absent. */
  lemma TrailingDotIgnoresOwnKey(mappers: map<string, Mapper>, field: string)
    requires field != "" && field[|field| - 1] == '.'
    ensures LongestPrefixMapper(mappers, field) == LongestPrefixMapper(mappers - {field}, field)
  {
    var n := |JavaSplit(field)|;
    var k := CandidateAmongFirst(mappers, field, n);
    if 0 < k {
      TrailingDotNeverCandidate(field, k);
    }
    CandidateAmongFirstIs(mappers - {field}, field, n, k);
  }

  /** A field ending with '.' is never looked up as such, because the split drops
      the trailing empty piece: a mapper stored under `"a."` is not found. */
  lemma TrailingDotNotLookedUp(m: Mapper)
    ensures LongestPrefixMapper(map["a." := m], "a.") == None
  {
    var ms := map["a." := m];
    RawSplitOneDot();
    var comps := JavaSplit("a.");
    assert comps == ["a"] by {
      assert "a."[1] == '.';
      assert StripTrailingEmpty(["a"]) == ["a"];
      assert ["a", ""][..1] == ["a"];
    }
    assert DotPrefix("a.", 1) == "a" by { assert comps[..1] == ["a"]; }
    assert "a" !in ms;
    assert MapperAmongFirst(ms, "a.", 1) == MapperAmongFirst(ms, "a.", 0);
  }

  /** With mappers at `"a"` and `"a.b"`, `"a.b.c"` resolves to the `"a.b"` mapper. */
  lemma LongestPrefixNested(ma: Mapper, mab: Mapper)
    ensures LongestPrefixMapper(map["a" := ma, "a.b" := mab], "a.b.c") == Some(mab)
  {
    var ms := map["a" := ma, "a.b" := mab];
    var field := "a.b.c";
    SplitABC();
    var comps := JavaSplit(field);
    assert comps[..3] == ["a", "b", "c"] && comps[..2] == ["a", "b"];
    assert JoinDots(["a", "b"]) == "a.b" by { assert ["a", "b"][..1] == ["a"]; }
    assert JoinDots(["a", "b", "c"]) == "a.b.c" by { assert ["a", "b", "c"][..2] == ["a", "b"]; }
    assert DotPrefix(field, 3) == "a.b.c" && "a.b.c" !in ms;
    assert DotPrefix(field, 2) == "a.b" && "a.b" in ms;
    assert MapperAmongFirst(ms, field, 3) == MapperAmongFirst(ms, field, 2);
  }

  /** With mappers at `"a"` and `"a.b"`, `"a.x"` falls back to the `"a"` mapper. */
  lemma LongestPrefixFallback(ma: Mapper, mab: Mapper)
    ensures LongestPrefixMapper(map["a" := ma, "a.b" := mab], "a.x") == Some(ma)
  {
    var ms := map["a" := ma, "a.b" := mab];
    var field := "a.x";
    SplitAX();
    var comps := JavaSplit(field);
    assert comps[..2] == ["a", "x"] && comps[..1] == ["a"];
    assert JoinDots(["a", "x"]) == "a.x" by { assert ["a", "x"][..1] == ["a"]; }
    assert DotPrefix(field, 2) == "a.x" && "a.x" !in ms;
    assert DotPrefix(field, 1) == "a" && "a" in ms;
    assert MapperAmongFirst(ms, field, 2) == MapperAmongFirst(ms, field, 1);
  }

  /** With mappers at `"a"` and `"a.b"`, `"z"` resolves to nothing. */
  lemma LongestPrefixMissing(ma: Mapper, mab: Mapper)
    ensures LongestPrefixMapper(map["a" := ma, "a.b" := mab], "z") == None
  {
    var ms := map["a" := ma, "a.b" := mab];
    RawSplitNoDot("z");
    JavaSplitNoTrailingDot("z");
    assert JavaSplit("z")[..1] == ["z"];
    assert DotPrefix("z", 1) == "z" && "z" !in ms;
    assert MapperAmongFirst(ms, "z", 1) == MapperAmongFirst(ms, "z", 0);
  }

  lemma SplitABC()
    ensures JavaSplit("a.b.c") == ["a", "b", "c"]
  {
    RawSplitNoDot("a");
    RawSplitNoDot("b");
    RawSplitNoDot("c");
    assert "b.c" == "b" + "." + "c";
    RawSplitConcat("b", "c");
    assert "a.b.c" == "a" + "." + "b.c";
    RawSplitConcat("a", "b.c");
    JavaSplitNoTrailingDot("a.b.c");
  }

  lemma SplitAX()
    ensures JavaSplit("a.x") == ["a", "x"]
  {
    RawSplitNoDot("a");
    RawSplitNoDot("x");
    assert "a.x" == "a" + "." + "x";
    RawSplitConcat("a", "x");
    JavaSplitNoTrailingDot("a.x");
  }

  /** The schema. `mapperOrder` is the order in which `mappers.values()` visits the
      mappers; `explicitAnalyzers` is the analyzer map as it was given. */
  class Schema {
    const mappers: map<string, Mapper>
    const mapperOrder: seq<string>
    const defaultAnalyzer: Analyzer
    const sources: AnalyzerSources
    ghost const explicitAnalyzers: map<string, Analyzer>
    var analyzers: map<string, Analyzer>
    var analyzer: PerFieldAnalyzer
    /** How many analyzers this schema has built from the classpath so far. */
    var instantiations: nat

    /** The iteration order lists every mapper key exactly once. */
    ghost predicate OrderValid()
      reads this
    {
      && (forall i, j :: 0 <= i < j < |mapperOrder| ==> mapperOrder[i] != mapperOrder[j])
      && Listed(mappers, mapperOrder)
      && (forall k :: k in mappers ==> k in mapperOrder)
    }

    /** The schema invariant: the analyzer cache memoises resolution, and the
        per-field analyzer has the default analyzer and exactly one entry per
        mapper key, the very analyzer cached under that mapper's analyzer name. */
    ghost predicate Valid()
      reads this
    {
      && OrderValid()
      && Memoizes(analyzers, explicitAnalyzers, sources)
      && analyzer.defaultAnalyzer == defaultAnalyzer
      && analyzer.fieldAnalyzers.Keys == mappers.Keys
      && forall k :: k in mappers ==>
           CachedUnder(analyzers, mappers[k].AnalyzerName(), analyzer.fieldAnalyzers[k])
    }

    /** The field initialisation that starts the Java constructor: a null default
        analyzer becomes the prebuilt default, null maps become empty maps. The
        per-field analyzer is still empty, so the object is not yet `Valid()`;
        only `New` models the whole Java constructor. */
    constructor Init(defaultAnalyzer: Option<Analyzer>, mappers: Option<map<string, Mapper>>,
                     analyzers: Option<map<string, Analyzer>>, sources: AnalyzerSources)
      ensures this.defaultAnalyzer == defaultAnalyzer.GetOr(sources.preBuiltDefault)
      ensures this.mappers == mappers.GetOr(map[])
      ensures this.analyzers == this.explicitAnalyzers == analyzers.GetOr(map[])
      ensures this.sources == sources
      ensures this.instantiations == 0
      ensures OrderValid() && Memoizes(this.analyzers, explicitAnalyzers, sources)
    {
      var ms := mappers.GetOr(map[]);
      var order := KeyOrder(ms);
      this.defaultAnalyzer := defaultAnalyzer.GetOr(sources.preBuiltDefault);
      this.mappers := ms;
      this.mapperOrder := order;
      this.analyzers := analyzers.GetOr(map[]);
      this.explicitAnalyzers := analyzers.GetOr(map[]);
      this.sources := sources;
      this.analyzer := PerFieldAnalyzer(defaultAnalyzer.GetOr(sources.preBuiltDefault), map[]);
      this.instantiations := 0;
    }

    /** The Java constructor: after the fields, the analyzer of every mapper is
        resolved through `getAnalyzer` and the per-field analyzer is built from
        them. It throws as soon as one name does not resolve. */
    static method New(defaultAnalyzer: Option<Analyzer>, mappers: Option<map<string, Mapper>>,
                      analyzers: Option<map<string, Analyzer>>, sources: AnalyzerSources)
      returns (r: Result<Schema>)
      ensures var ms := mappers.GetOr(map[]); var explicit := analyzers.GetOr(map[]);
        r.Ok? <==> forall k :: k in ms ==> Resolvable(explicit, sources, ms[k].AnalyzerName())
      ensures var ms := mappers.GetOr(map[]); var explicit := analyzers.GetOr(map[]);
        r.Failure? ==> exists k :: k in ms && !Resolvable(explicit, sources, ms[k].AnalyzerName())
                                   && r.message == ResolutionFailure(ms[k].AnalyzerName())
      ensures r.Ok? ==>
        && fresh(r.value) && r.value.Valid()
        && r.value.defaultAnalyzer == defaultAnalyzer.GetOr(sources.preBuiltDefault)
        && r.value.mappers == mappers.GetOr(map[])
        && r.value.explicitAnalyzers == analyzers.GetOr(map[])
        && r.value.sources == sources
    {
      var s := new Schema.Init(defaultAnalyzer, mappers, analyzers, sources);
      var perField := s.ResolveMapperAnalyzers();
      if perField.Failure? {
        return Failure(perField.message);
      }
      s.analyzer := PerFieldAnalyzer(s.defaultAnalyzer, perField.value);
      return Ok(s);
    }

    /** The loop of the Java constructor: resolves the analyzer name of every
        mapper in iteration order through `getAnalyzer`, stopping at the first
        that throws, and collects the analyzers by mapper key. */
    method ResolveMapperAnalyzers() returns (r: Result<map<string, Analyzer>>)
      requires OrderValid() && Memoizes(analyzers, explicitAnalyzers, sources)
      modifies this`analyzers, this`instantiations
      ensures Memoizes(analyzers, explicitAnalyzers, sources)
      ensures r.Ok? <==> forall k :: k in mappers ==> Resolvable(explicitAnalyzers, sources, mappers[k].AnalyzerName())
      ensures r.Failure? ==> exists k :: k in mappers && !Resolvable(explicitAnalyzers, sources, mappers[k].AnalyzerName())
                                         && r.message == ResolutionFailure(mappers[k].AnalyzerName())
      ensures r.Ok? ==> r.value.Keys == mappers.Keys
      ensures r.Ok? ==> forall k :: k in mappers ==> CachedUnder(analyzers, mappers[k].AnalyzerName(), r.value[k])
    {
      var perField: map<string, Analyzer> := map[];
      var i := 0;
      while i < |mapperOrder|
        invariant Collected(mappers, mapperOrder, analyzers, explicitAnalyzers, sources, i, perField)
      {
        var name := mapperOrder[i];
        ghost var before := analyzers;
        var a := GetAnalyzer(mappers[name].AnalyzerName());
        if a.Failure? {
          return Failure(a.message);
        }
        CollectedNext(mappers, mapperOrder, before, analyzers, explicitAnalyzers, sources, i, perField, a.value);
        perField := perField[name := a.value];
        i := i + 1;
      }
      CollectedAll(mappers, mapperOrder, analyzers, explicitAnalyzers, sources, perField);
      return Ok(perField);
    }

    /** `getAnalyzer(name)`: answers what the name resolves to, and caches a
        successful resolution under the name, so that a name the classpath
        builds is built only once. */
    method GetAnalyzer(name: Option<string>) returns (r: Result<Analyzer>)
      requires Memoizes(analyzers, explicitAnalyzers, sources)
      modifies this`analyzers, this`instantiations
      ensures Memoizes(analyzers, explicitAnalyzers, sources)
      ensures r == ResolveAnalyzer(old(analyzers), sources, name, old(instantiations))
      ensures instantiations == old(instantiations) + if Instantiates(old(analyzers), sources, name) then 1 else 0
      ensures r.Ok? <==> Resolvable(explicitAnalyzers, sources, name)
      ensures r.Failure? ==> r.message == ResolutionFailure(name)
      ensures r.Ok? ==> analyzers == old(analyzers)[name.value := r.value]
      ensures r.Ok? && name.value in old(analyzers) ==> analyzers == old(analyzers)
      ensures r.Failure? ==> analyzers == old(analyzers)
      ensures r.Ok? ==> CachedUnder(analyzers, name, r.value)
      ensures forall k :: k in old(analyzers) ==> k in analyzers && analyzers[k] == old(analyzers)[k]
      ensures old(Valid()) ==> Valid()
    {
      MemoizedResolution(analyzers, explicitAnalyzers, sources, name, instantiations);
      if IsBlank(name) {
        return Failure(BlankNameMessage);
      }
      var n := name.value;
      if n in analyzers {
        return Ok(analyzers[n]);
      }
      var built := instantiations;
      var a: Analyzer;
      var p := sources.preBuilt(n);
      if p.Some? {
        a := p.value;
      } else {
        if !sources.onClasspath(n) {
          return Failure(NotFoundMessage(n));
        }
        a := sources.instantiate(n, instantiations);
        instantiations := instantiations + 1;
      }
      CacheResolved(analyzers, explicitAnalyzers, sources, n, a, built);
      analyzers := analyzers[n := a];
      r := Ok(a);
    }

    /** `getAnalyzer()`: the per-field analyzer, the same one for indexing and for
        queries. Each mapper's entry is the analyzer cached under its analyzer
        name, the one `getAnalyzer(name)` hands out from then on. */
    function GetPerFieldAnalyzer(): (w: PerFieldAnalyzer)
      requires Valid()
      reads this
      ensures w.defaultAnalyzer == defaultAnalyzer
      ensures w.fieldAnalyzers.Keys == mappers.Keys
      ensures forall k :: k in mappers ==> CachedUnder(analyzers, mappers[k].AnalyzerName(), w.fieldAnalyzers[k])
    {
      analyzer
    }

    /** `getMapper(field)`: tries the candidates of `field` from the longest
        (all components) to the shortest (the first component). */
    method GetMapper(field: string) returns (r: Option<Mapper>)
      ensures r == LongestPrefixMapper(mappers, field)
    {
      var components := JavaSplit(field);
      var i := |components| - 1;
      while i >= 0
        invariant -1 <= i < |components|
        invariant forall j :: i + 1 < j <= |components| ==> DotPrefix(field, j) !in mappers
      {
        var sb := JoinComponents(components, i);
        if sb in mappers {
          CandidateAmongFirstIs(mappers, field, |components|, i + 1);
          return Some(mappers[sb]);
        }
        i := i - 1;
      }
      CandidateAmongFirstIs(mappers, field, |components|, 0);
      return None;
    }

    /** `addFields(document, columns)`: every mapper in iteration order adds the
        fields of its columns; the first exception stops the loop. */
    method AddFields(document: Document, columns: seq<Column>) returns (o: Outcome)
      requires Listed(mappers, mapperOrder)
      modifies document
      ensures document.fields == old(document.fields) + SchemaEmission(mappers, mapperOrder, columns).fields
      ensures o == SchemaEmission(mappers, mapperOrder, columns).outcome
    {
      ghost var steps := MapperSteps(mappers, mapperOrder, columns);
      ghost var before := document.fields;
      var i := 0;
      o := Pass;
      while i < |mapperOrder| && o == Pass
        invariant Ran(steps, i, before, document.fields, o)
      {
        ghost var mid := document.fields;
        MapperStepsAt(mappers, mapperOrder, columns, i);
        o := mappers[mapperOrder[i]].AddFields(document, columns);
        RanNext(steps, i, before, mid, document.fields, o);
        i := i + 1;
      }
      RanDone(steps, i, before, document.fields, o);
    }

    /** `validate(metadata)`: every mapper's check in iteration order, stopping at
        the first that throws. */
    method Validate(metadata: Metadata) returns (o: Outcome)
      requires OrderValid()
      ensures o.Pass? <==> forall k :: k in mappers ==> mappers[k].Validate(metadata).Pass?
      ensures o.Fail? ==> exists i :: (
        && 0 <= i < |mapperOrder| && o == mappers[mapperOrder[i]].Validate(metadata)
        && forall j :: 0 <= j < i ==> mappers[mapperOrder[j]].Validate(metadata).Pass?)
    {
      var i := 0;
      while i < |mapperOrder|
        invariant 0 <= i <= |mapperOrder|
        invariant forall j :: 0 <= j < i ==> mappers[mapperOrder[j]].Validate(metadata).Pass?
      {
        o := mappers[mapperOrder[i]].Validate(metadata);
        if o.Fail? {
          return;
        }
        i := i + 1;
      }
      o := Pass;
    }
  }

  /** Asking twice for the same name gives the same answer, and after a success
      the cache holds the answer under the name. */
  method ResolveTwice(s: Schema, name: Option<string>) returns (first: Result<Analyzer>, second: Result<Analyzer>)
    requires Memoizes(s.analyzers, s.explicitAnalyzers, s.sources)
    modifies s`analyzers, s`instantiations
    ensures first == second
    ensures first.Ok? ==> CachedUnder(s.analyzers, name, first.value)
    ensures s.instantiations <= old(s.instantiations) + 1
  {
    first := s.GetAnalyzer(name);
    second := s.GetAnalyzer(name);
  }

  /** In a valid schema, asking `getAnalyzer` for a mapper's analyzer name hands
      out the very analyzer the per-field analyzer uses for that mapper's field,
      and builds nothing new. */
  lemma PerFieldIsGetAnalyzer(s: Schema, k: string, built: nat)
    requires s.Valid() && k in s.mappers
    ensures ResolveAnalyzer(s.analyzers, s.sources, s.mappers[k].AnalyzerName(), built)
              == Ok(s.GetPerFieldAnalyzer().fieldAnalyzers[k])
    ensures !Instantiates(s.analyzers, s.sources, s.mappers[k].AnalyzerName())
  {
    CachedResolves(s.analyzers, s.sources, s.mappers[k].AnalyzerName(), s.analyzer.fieldAnalyzers[k], built);
  }

  /** The loop of `Schema.ResolveMapperAnalyzers` after `i` mappers: the cache
      still memoises resolution, and each of the first `i` mappers' names
      resolved and has its analyzer, cached under the name, collected under its
      key. */
  ghost predicate Collected(mappers: map<string, Mapper>, order: seq<string>, cache: map<string, Analyzer>,
                            explicit: map<string, Analyzer>, sources: AnalyzerSources,
                            i: nat, perField: map<string, Analyzer>)
  {
    && Listed(mappers, order)
    && i <= |order|
    && Memoizes(cache, explicit, sources)
    && (forall j :: 0 <= j < i ==> order[j] in perField)
    && (forall j :: 0 <= j < i ==> Resolvable(explicit, sources, mappers[order[j]].AnalyzerName()))
    && (forall k :: k in perField ==> k in mappers && CachedUnder(cache, mappers[k].AnalyzerName(), perField[k]))
  }

  /** One more mapper collected: its name resolved to `a`, now cached, and the
      cache kept every earlier entry. */
  lemma CollectedNext(mappers: map<string, Mapper>, order: seq<string>, cache: map<string, Analyzer>,
                      cache': map<string, Analyzer>, explicit: map<string, Analyzer>, sources: AnalyzerSources,
                      i: nat, perField: map<string, Analyzer>, a: Analyzer)
    requires Collected(mappers, order, cache, explicit, sources, i, perField) && i < |order|
    requires Memoizes(cache', explicit, sources)
    requires forall k :: k in cache ==> k in cache' && cache'[k] == cache[k]
    requires Resolvable(explicit, sources, mappers[order[i]].AnalyzerName())
    requires CachedUnder(cache', mappers[order[i]].AnalyzerName(), a)
    ensures Collected(mappers, order, cache', explicit, sources, i + 1, perField[order[i] := a])
  {
  }

  /** Once every mapper is collected, every mapper's name resolves and the
      collected map has exactly the mapper keys. */
  lemma CollectedAll(mappers: map<string, Mapper>, order: seq<string>, cache: map<string, Analyzer>,
                     explicit: map<string, Analyzer>, sources: AnalyzerSources, perField: map<string, Analyzer>)
    requires Collected(mappers, order, cache, explicit, sources, |order|, perField)
    requires forall k :: k in mappers ==> k in order
    ensures forall k :: k in mappers ==> Resolvable(explicit, sources, mappers[k].AnalyzerName())
    ensures perField.Keys == mappers.Keys
    ensures forall k :: k in mappers ==> CachedUnder(cache, mappers[k].AnalyzerName(), perField[k])
  {
    forall k | k in mappers
      ensures k in perField && Resolvable(explicit, sources, mappers[k].AnalyzerName())
    {
      var j :| 0 <= j < |order| && order[j] == k;
    }
  }

  /** Every name in `order` is a mapper key. */
  ghost predicate Listed(mappers: map<string, Mapper>, order: seq<string>) {
    forall i :: 0 <= i < |order| ==> order[i] in mappers
  }

  /** The steps of `Schema.addFields`: what each mapper listed in `order` adds
      for the row, one per mapper. */
  function MapperSteps(mappers: map<string, Mapper>, order: seq<string>, columns: seq<Column>): (steps: seq<Emission>)
    requires Listed(mappers, order)
    ensures |steps| == |order|
    decreases |order|
  {
    if order == [] then []
    else
      var init := order[..|order| - 1];
      assert Listed(mappers, init);
      MapperSteps(mappers, init, columns) + [mappers[order[|order| - 1]].RowEmission(columns)]
  }

  /** The step of the mapper at position `i` is what that mapper adds for the row. */
  lemma {:induction false} MapperStepsAt(mappers: map<string, Mapper>, order: seq<string>, columns: seq<Column>, i: nat)
    requires Listed(mappers, order) && i < |order|
    ensures MapperSteps(mappers, order, columns)[i] == mappers[order[i]].RowEmission(columns)
    decreases |order|
  {
    var init := order[..|order| - 1];
    assert Listed(mappers, init);
    if i < |order| - 1 {
      MapperStepsAt(mappers, init, columns, i);
    }
  }

  /** What `Schema.addFields` does: every mapper listed in `order` adds the fields
      of its columns, and the first exception stops the loop. */
  function SchemaEmission(mappers: map<string, Mapper>, order: seq<string>, columns: seq<Column>): Emission
    requires Listed(mappers, order)
  {
    Chain(MapperSteps(mappers, order, columns), |order|)
  }

  /** `Schema.addFields` returns normally exactly when every mapper adds its
      columns without an exception. */
  lemma SchemaEmissionPasses(mappers: map<string, Mapper>, order: seq<string>, columns: seq<Column>)
    requires Listed(mappers, order)
    ensures SchemaEmission(mappers, order, columns).outcome.Pass? <==>
      forall i :: 0 <= i < |order| ==> mappers[order[i]].RowEmission(columns).outcome.Pass?
  {
    var steps := MapperSteps(mappers, order, columns);
    ChainPasses(steps, |order|);
    if SchemaEmission(mappers, order, columns).outcome.Pass? {
      forall i | 0 <= i < |order| ensures mappers[order[i]].RowEmission(columns).outcome.Pass? {
        MapperStepsAt(mappers, order, columns, i);
      }
    } else {
      var j :| 0 <= j < |order| && !steps[j].outcome.Pass?;
      MapperStepsAt(mappers, order, columns, j);
    }
  }

  /** When `Schema.addFields` throws, it throws what the first throwing mapper
      throws, and the document keeps the fields of the mappers before it followed
      by what that mapper added before it threw. */
  lemma SchemaEmissionFails(mappers: map<string, Mapper>, order: seq<string>, columns: seq<Column>)
    requires Listed(mappers, order)
    requires SchemaEmission(mappers, order, columns).outcome.Fail?
    ensures exists i :: (
      && 0 <= i < |order| && Listed(mappers, order[..i])
      && (forall j :: 0 <= j < i ==> mappers[order[j]].RowEmission(columns).outcome.Pass?)
      && SchemaEmission(mappers, order, columns) == Emission(
           SchemaEmission(mappers, order[..i], columns).fields + mappers[order[i]].RowEmission(columns).fields,
           mappers[order[i]].RowEmission(columns).outcome))
  {
    var steps := MapperSteps(mappers, order, columns);
    var i := FirstFailure(steps, |order|);
    MapperStepsAt(mappers, order, columns, i);
    forall j | 0 <= j < i ensures mappers[order[j]].RowEmission(columns).outcome.Pass? {
      MapperStepsAt(mappers, order, columns, j);
    }
    assert Listed(mappers, order[..i]);
    forall j | 0 <= j < i ensures steps[j] == MapperSteps(mappers, order[..i], columns)[j] {
      MapperStepsAt(mappers, order, columns, j);
      MapperStepsAt(mappers, order[..i], columns, j);
    }
    ChainPrefix(steps, MapperSteps(mappers, order[..i], columns), i);
  }
}
