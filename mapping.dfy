/**
 * `SingleColumnMapper`: the part of a field mapper that turns the value of one
 * column into the Lucene fields of a document. The conversion to the mapper's
 * BASE kind (`base`), the field builders of the concrete mapper kind and the
 * column check of the `Mapper` superclass are given to each mapper as
 * functions; the fields it produces are recorded as values.
 */
module Mapping {
  import opened Results

  /** A column value as the host hands it over (a Java `Object`). */
  type Value

  /** A value of the mapper's BASE kind, the result of `base`. */
  type Base

  /** The host's column family metadata (`CFMetaData`). */
  type Metadata

  /** A Lucene field: `indexedField(name, base)` or `sortedField(name, base, isCollection)`. */
  datatype Field =
    | Indexed(name: string, base: Base)
    | Sorted(name: string, base: Base, isCollection: bool)

  /** One cell of a row: the mapper name it is addressed to, its full name (with a
      collection element's suffix), its composed value and whether it comes from a
      collection. */
  datatype Column = Column(mapperName: string, fullName: string, composedValue: Value, isCollection: bool)

  /** What a run of `addFields` calls leaves behind: the fields it appended, and
      whether it returned normally or threw. */
  datatype Emission = Emission(fields: seq<Field>, outcome: Outcome)

  /** A Lucene document: fields are only ever appended to it. */
  class Document {
    var fields: seq<Field>

    constructor ()
      ensures fields == []
    {
      fields := [];
    }

    method Add(f: Field)
      modifies this
      ensures fields == old(fields) + [f]
    {
      fields := fields + [f];
    }
  }

  /** `Columns.getColumnsByName(name)`: the columns addressed to `name`, in row order. */
  function ColumnsByName(columns: seq<Column>, name: string): (r: seq<Column>)
    ensures |r| <= |columns|
    ensures forall k :: 0 <= k < |r| ==> r[k].mapperName == name
  {
    if columns == [] then []
    else (if columns[0].mapperName == name then [columns[0]] else []) + ColumnsByName(columns[1..], name)
  }

  /** The selected columns are exactly the row's columns addressed to `name`. */
  lemma {:induction false} ColumnsByNameSpec(columns: seq<Column>, name: string)
    ensures forall c :: c in ColumnsByName(columns, name) <==> c in columns && c.mapperName == name
  {
    if columns != [] {
      ColumnsByNameSpec(columns[1..], name);
      assert columns == [columns[0]] + columns[1..];
    }
  }

  /** `error(msg, args)`: never returns a BASE value, always throws with the message. */
  function Error(message: string): (r: Result<Base>)
    ensures r.Failure? && r.message == message
  {
    Failure(message)
  }

  /** A run of calls that each append fields and may throw, stopped by the first
      exception: what the first `n` of `steps` leave behind together. */
  function Chain(steps: seq<Emission>, n: nat): Emission
    requires n <= |steps|
    decreases n
  {
    if n == 0 then Emission([], Pass)
    else
      var pre := Chain(steps, n - 1);
      if pre.outcome.Fail? then pre
      else Emission(pre.fields + steps[n - 1].fields, steps[n - 1].outcome)
  }

  /** A run depends only on the steps it has taken. */
  lemma {:induction false} ChainPrefix(steps: seq<Emission>, other: seq<Emission>, n: nat)
    requires n <= |steps| && n <= |other|
    requires forall j :: 0 <= j < n ==> steps[j] == other[j]
    ensures Chain(steps, n) == Chain(other, n)
    decreases n
  {
    if n > 0 {
      ChainPrefix(steps, other, n - 1);
    }
  }

  /** Once a step has thrown, the later steps add nothing. */
  lemma {:induction false} ChainStops(steps: seq<Emission>, n: nat, k: nat)
    requires k <= n <= |steps|
    requires k < n ==> Chain(steps, k).outcome.Fail?
    ensures Chain(steps, n) == Chain(steps, k)
    decreases n
  {
    if k < n {
      ChainStops(steps, n - 1, k);
    }
  }

  /** A loop that takes `steps` one at a time and stops at the first exception,
      after its first `i` steps: the fields it appended to `before` and the
      outcome it holds are those of the run so far. */
  ghost predicate Ran(steps: seq<Emission>, i: nat, before: seq<Field>, fields: seq<Field>, o: Outcome) {
    i <= |steps| && o == Chain(steps, i).outcome && fields == before + Chain(steps, i).fields
  }

  /** Taking one more step after normal returns extends the run by that step. */
  lemma RanNext(steps: seq<Emission>, i: nat, before: seq<Field>, mid: seq<Field>, after: seq<Field>, o: Outcome)
    requires Ran(steps, i, before, mid, Pass) && i < |steps|
    requires after == mid + steps[i].fields && o == steps[i].outcome
    ensures Ran(steps, i + 1, before, after, o)
  {
    assert before + (Chain(steps, i).fields + steps[i].fields) == mid + steps[i].fields;
  }

  /** A loop that has taken every step, or has stopped at an exception, has done
      what the whole run does. */
  lemma RanDone(steps: seq<Emission>, i: nat, before: seq<Field>, fields: seq<Field>, o: Outcome)
    requires Ran(steps, i, before, fields, o) && (i == |steps| || o.Fail?)
    ensures fields == before + Chain(steps, |steps|).fields && o == Chain(steps, |steps|).outcome
  {
    ChainStops(steps, |steps|, i);
  }

  /** A run returns normally exactly when every step does. */
  lemma {:induction false} ChainPasses(steps: seq<Emission>, n: nat)
    requires n <= |steps|
    ensures Chain(steps, n).outcome.Pass? <==> forall j :: 0 <= j < n ==> steps[j].outcome.Pass?
    decreases n
  {
    if n > 0 {
      ChainPasses(steps, n - 1);
    }
  }

  /** A run that returns normally appends `c` fields per step when every step
      appends `c` fields. */
  lemma {:induction false} ChainLength(steps: seq<Emission>, n: nat, c: nat)
    requires n <= |steps| && Chain(steps, n).outcome.Pass?
    requires forall j :: 0 <= j < n ==> |steps[j].fields| == c
    ensures |Chain(steps, n).fields| == n * c
    decreases n
  {
    if n > 0 {
      ChainPasses(steps, n);
      ChainLength(steps, n - 1, c);
      assert (n - 1) * c + c == n * c;
    }
  }

  /** The first step that throws in a run that throws: the steps before it all
      returned normally, and the run keeps their fields followed by what the
      throwing step appended before it threw. */
  function FirstFailure(steps: seq<Emission>, n: nat): (k: nat)
    requires n <= |steps| && Chain(steps, n).outcome.Fail?
    ensures k < n && steps[k].outcome.Fail?
    ensures forall j :: 0 <= j < k ==> steps[j].outcome.Pass?
    ensures Chain(steps, n) == Emission(Chain(steps, k).fields + steps[k].fields, steps[k].outcome)
    decreases n
  {
    if Chain(steps, n - 1).outcome.Fail? then FirstFailure(steps, n - 1)
    else ChainPasses(steps, n - 1); n - 1
  }

  /** A mapper of one column. `analyzer` is the analyzer name the `Mapper`
      superclass reports, `base` the conversion of a raw value to BASE, and
      `validateColumn` the superclass check `validate(metadata, name)`. The field
      builders `indexedField` and `sortedField` of the concrete mapper kind are
      given by whether they return or throw; the field a call returns is
      recorded as `Indexed(name, base)` or `Sorted(name, base, isCollection)`.
      Each of `base`, `indexedField` and `sortedField` may throw. */
  datatype SingleColumnMapper = SingleColumnMapper(
    name: string,
    indexed: bool,
    sorted: bool,
    analyzer: Option<string>,
    base: (string, Value) -> Result<Base>,
    indexedField: (string, Base) -> Outcome,
    sortedField: (string, Base, bool) -> Outcome,
    validateColumn: (Metadata, string) -> Outcome)
  {
    /** How many fields one value produces. */
    function FieldCount(): nat {
      (if indexed then 1 else 0) + (if sorted then 1 else 0)
    }

    /** The fields one converted value produces when no field builder throws: an
        indexed field if `indexed`, then a sorted field if `sorted`. */
    function AllFields(fieldName: string, b: Base, isCollection: bool): (r: seq<Field>)
      ensures |r| == FieldCount()
      ensures indexed ==> r[0] == Indexed(fieldName, b)
      ensures sorted ==> r[|r| - 1] == Sorted(fieldName, b, isCollection)
      ensures forall k :: 0 <= k < |r| ==> r[k].name == fieldName && r[k].base == b
      ensures forall k :: 0 <= k < |r| ==> (r[k].Indexed? <==> indexed && k == 0)
    {
      (if indexed then [Indexed(fieldName, b)] else []) + (if sorted then [Sorted(fieldName, b, isCollection)] else [])
    }

    /** The value converts and every field builder the mapper calls on it returns. */
    predicate Converts(fieldName: string, value: Value, isCollection: bool) {
      && base(fieldName, value).Ok?
      && (indexed ==> indexedField(fieldName, base(fieldName, value).value).Pass?)
      && (sorted ==> sortedField(fieldName, base(fieldName, value).value, isCollection).Pass?)
    }

    /** What `addFields(document, fieldName, value, isCollection)` appends, and
        whether it throws: one conversion, then the indexed field if `indexed`, then
        the sorted field if `sorted`, each added as soon as it is built. */
    function FieldsFor(fieldName: string, value: Value, isCollection: bool): (e: Emission)
      ensures e.outcome.Pass? <==> Converts(fieldName, value, isCollection)
      ensures e.outcome.Pass? ==> e.fields == AllFields(fieldName, base(fieldName, value).value, isCollection)
      ensures base(fieldName, value).Failure? ==> e == Emission([], Fail(base(fieldName, value).message))
      ensures base(fieldName, value).Ok? ==>
        var b := base(fieldName, value).value;
        && |e.fields| <= FieldCount()
        && e.fields == AllFields(fieldName, b, isCollection)[..|e.fields|]
      ensures base(fieldName, value).Ok? && indexed && indexedField(fieldName, base(fieldName, value).value).Fail? ==>
        e == Emission([], indexedField(fieldName, base(fieldName, value).value))
      ensures
        && base(fieldName, value).Ok? && sorted
        && (indexed ==> indexedField(fieldName, base(fieldName, value).value).Pass?)
        && sortedField(fieldName, base(fieldName, value).value, isCollection).Fail? ==>
        e == Emission(
          (if indexed then [Indexed(fieldName, base(fieldName, value).value)] else []),
          sortedField(fieldName, base(fieldName, value).value, isCollection))
    {
      match base(fieldName, value)
      case Failure(m) => Emission([], Fail(m))
      case Ok(b) =>
        if indexed && indexedField(fieldName, b).Fail? then Emission([], indexedField(fieldName, b))
        else
          var first := if indexed then [Indexed(fieldName, b)] else [];
          if sorted && sortedField(fieldName, b, isCollection).Fail? then
            Emission(first, sortedField(fieldName, b, isCollection))
          else
            Emission(AllFields(fieldName, b, isCollection), Pass)
    }

    /** Every field one value appends, even when a later builder throws, carries
        the given name and the one converted value, and only the first field, when
        `indexed`, is an indexed one. */
    lemma FieldsForShared(fieldName: string, value: Value, isCollection: bool)
      requires base(fieldName, value).Ok?
      ensures var fs := FieldsFor(fieldName, value, isCollection).fields;
        forall k :: 0 <= k < |fs| ==> fs[k].name == fieldName && fs[k].base == base(fieldName, value).value
      ensures var fs := FieldsFor(fieldName, value, isCollection).fields;
        forall k :: 0 <= k < |fs| ==> (fs[k].Indexed? <==> indexed && k == 0)
    {
      var fs := FieldsFor(fieldName, value, isCollection).fields;
      var all := AllFields(fieldName, base(fieldName, value).value, isCollection);
      forall k | 0 <= k < |fs| ensures fs[k] == all[k] {
        assert fs == all[..|fs|];
      }
    }

    /** What the single-value `addFields` leaves behind for one column. */
    function ColumnStep(c: Column): (e: Emission)
      ensures e.outcome.Pass? <==> ForColumnOk(c)
      ensures e == FieldsFor(c.fullName, c.composedValue, c.isCollection)
    {
      FieldsFor(c.fullName, c.composedValue, c.isCollection)
    }

    /** The column converts and its fields are built without an exception. */
    predicate ForColumnOk(c: Column) {
      Converts(c.fullName, c.composedValue, c.isCollection)
    }

    /** The steps of the columns overload for `cols`, one per column. */
    function ColumnSteps(cols: seq<Column>): (steps: seq<Emission>)
      ensures |steps| == |cols|
      decreases |cols|
    {
      if cols == [] then []
      else ColumnSteps(cols[..|cols| - 1]) + [ColumnStep(cols[|cols| - 1])]
    }

    /** The step of the column at position `k` is what the single-value path does
        with that column. */
    lemma {:induction false} ColumnStepsAt(cols: seq<Column>, k: nat)
      requires k < |cols|
      ensures ColumnSteps(cols)[k] == ColumnStep(cols[k])
      decreases |cols|
    {
      if k < |cols| - 1 {
        ColumnStepsAt(cols[..|cols| - 1], k);
      }
    }

    /** What the columns overload of `addFields` does with the columns `cols`: each
        in turn, stopping at the first one that throws. */
    function ColumnsEmission(cols: seq<Column>): Emission {
      Chain(ColumnSteps(cols), |cols|)
    }

    /** What the columns overload of `addFields` does with a whole row: every
        column addressed to this mapper, in row order. */
    function RowEmission(columns: seq<Column>): Emission {
      ColumnsEmission(ColumnsByName(columns, name))
    }

    /** `addFields(document, name, value, isCollection)`: the document gains what
        `FieldsFor` appends, and the call throws what it throws. */
    method AddFields(document: Document, fieldName: string, value: Value, isCollection: bool) returns (o: Outcome)
      modifies document
      ensures document.fields == old(document.fields) + FieldsFor(fieldName, value, isCollection).fields
      ensures o == FieldsFor(fieldName, value, isCollection).outcome
    {
      var b := base(fieldName, value);
      if b.Failure? {
        return Fail(b.message);
      }
      if indexed {
        o := indexedField(fieldName, b.value);
        if o.Fail? {
          return;
        }
        document.Add(Indexed(fieldName, b.value));
      }
      if sorted {
        o := sortedField(fieldName, b.value, isCollection);
        if o.Fail? {
          return;
        }
        document.Add(Sorted(fieldName, b.value, isCollection));
      }
      o := Pass;
    }

    /** `addFields(document, columns)`. */
    method AddColumns(document: Document, columns: seq<Column>) returns (o: Outcome)
      modifies document
      ensures document.fields == old(document.fields) + RowEmission(columns).fields
      ensures o == RowEmission(columns).outcome
    {
      var matching := ColumnsByName(columns, name);
      ghost var steps := ColumnSteps(matching);
      ghost var before := document.fields;
      var i := 0;
      o := Pass;
      while i < |matching| && o == Pass
        invariant Ran(steps, i, before, document.fields, o)
      {
        var c := matching[i];
        ghost var mid := document.fields;
        ColumnStepsAt(matching, i);
        o := AddFields(document, c.fullName, c.composedValue, c.isCollection);
        RanNext(steps, i, before, mid, document.fields, o);
        i := i + 1;
      }
      RanDone(steps, i, before, document.fields, o);
    }

    /** `validate(metadata)`: the superclass check, applied to this mapper's own name. */
    function Validate(metadata: Metadata): (o: Outcome)
      ensures o == validateColumn(metadata, name)
    {
      validateColumn(metadata, name)
    }

    /** The columns overload returns normally exactly when every column converts. */
    lemma ColumnsEmissionPasses(cols: seq<Column>)
      ensures ColumnsEmission(cols).outcome.Pass? <==> forall k :: 0 <= k < |cols| ==> ForColumnOk(cols[k])
    {
      var steps := ColumnSteps(cols);
      ChainPasses(steps, |cols|);
      if ColumnsEmission(cols).outcome.Pass? {
        forall k | 0 <= k < |cols| ensures ForColumnOk(cols[k]) {
          ColumnStepsAt(cols, k);
        }
      } else {
        var j :| 0 <= j < |cols| && !steps[j].outcome.Pass?;
        ColumnStepsAt(cols, j);
        assert !ForColumnOk(cols[j]);
      }
    }

    /** When it returns normally, the columns overload adds `FieldCount()` fields
        per column. */
    lemma ColumnsEmissionLength(cols: seq<Column>)
      requires ColumnsEmission(cols).outcome.Pass?
      ensures |ColumnsEmission(cols).fields| == |cols| * FieldCount()
    {
      var steps := ColumnSteps(cols);
      ChainPasses(steps, |cols|);
      forall k | 0 <= k < |cols| ensures |steps[k].fields| == FieldCount() {
        ColumnStepsAt(cols, k);
      }
      ChainLength(steps, |cols|, FieldCount());
    }

    /** When the columns overload throws, it throws what the first failing column
        throws, and the document keeps exactly the fields of the columns before
        that one, followed by what the failing column appended before its
        exception (its indexed field, when only `sortedField` threw). */
    lemma ColumnsEmissionFails(cols: seq<Column>)
      requires ColumnsEmission(cols).outcome.Fail?
      ensures exists k :: (
        && 0 <= k < |cols| && !ForColumnOk(cols[k])
        && (forall j :: 0 <= j < k ==> ForColumnOk(cols[j]))
        && ColumnsEmission(cols).outcome == FieldsFor(cols[k].fullName, cols[k].composedValue, cols[k].isCollection).outcome
        && ColumnsEmission(cols).fields ==
             ColumnsEmission(cols[..k]).fields + FieldsFor(cols[k].fullName, cols[k].composedValue, cols[k].isCollection).fields)
    {
      var steps := ColumnSteps(cols);
      var k := FirstFailure(steps, |cols|);
      ColumnStepsAt(cols, k);
      forall j | 0 <= j < k ensures ForColumnOk(cols[j]) {
        ColumnStepsAt(cols, j);
      }
      assert !ForColumnOk(cols[k]);
      forall j | 0 <= j < k ensures steps[j] == ColumnSteps(cols[..k])[j] {
        ColumnStepsAt(cols, j);
        ColumnStepsAt(cols[..k], j);
      }
      ChainPrefix(steps, ColumnSteps(cols[..k]), k);
    }
  }

  /** A field mapper of any kind, as the schema holds it (`Mapper`): a
      `SingleColumnMapper`, or a mapper of another kind given by the analyzer name
      it reports and by its own `addFields(document, columns)` (what it appends
      and whether it throws) and `validate(metadata)`. */
  datatype Mapper =
    | Single(single: SingleColumnMapper)
    | Other(analyzerName: Option<string>, emit: seq<Column> -> Emission, check: Metadata -> Outcome)
  {
    /** `getAnalyzer()`: the name of the analyzer the mapper asks for. */
    function AnalyzerName(): Option<string> {
      match this
      case Single(m) => m.analyzer
      case Other(a, _, _) => a
    }

    /** What the mapper's own `addFields(document, columns)` does with a row. */
    function RowEmission(columns: seq<Column>): Emission {
      match this
      case Single(m) => m.RowEmission(columns)
      case Other(_, emit, _) => emit(columns)
    }

    /** The mapper's own `validate(metadata)`. */
    function Validate(metadata: Metadata): Outcome {
      match this
      case Single(m) => m.Validate(metadata)
      case Other(_, _, check) => check(metadata)
    }

    /** `mapper.addFields(document, columns)`, dispatched to the mapper's own
        override: the document keeps its fields and gains what the mapper emits
        for the row. */
    method AddFields(document: Document, columns: seq<Column>) returns (o: Outcome)
      modifies document
      ensures document.fields == old(document.fields) + RowEmission(columns).fields
      ensures o == RowEmission(columns).outcome
    {
      match this
      case Single(m) =>
        o := m.AddColumns(document, columns);
      case Other(_, emit, _) =>
        var e := emit(columns);
        document.fields := document.fields + e.fields;
        o := e.outcome;
    }
  }
}
