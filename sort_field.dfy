/**
 * `SortFieldBuilder`: a builder holding a field name and a `reverse` flag, which
 * builds a `SortField` and reads from and writes to a structured description
 * (`{field: ..., reverse: ...}`), where `reverse` may be left out on reading and
 * is always written.
 */
module SortFields {
  import opened Results

  /** `SortField.DEFAULT_REVERSE`. */
  const DefaultReverse: bool := false

  /** `SortField(field, reverse)`. */
  datatype SortField = SortField(field: string, reverse: bool)

  /** The structured description of a sort field; `reverse` is absent when the
      text leaves it out. */
  datatype SortFieldDescription = SortFieldDescription(field: string, reverse: Option<bool>)

  /** A description with the default filled in: what writing back a read
      description gives. */
  function Normalize(d: SortFieldDescription): (n: SortFieldDescription)
    ensures n.field == d.field && n.reverse.Some?
    ensures d.reverse.Some? ==> n == d
    ensures d.reverse.None? ==> n.reverse == Some(DefaultReverse)
  {
    SortFieldDescription(d.field, Some(d.reverse.GetOr(DefaultReverse)))
  }

  class SortFieldBuilder {
    var field: string
    var reverse: bool

    /** `new SortFieldBuilder(field)`: not reversed until told so. */
    constructor (field: string)
      ensures this.field == field && this.reverse == DefaultReverse
    {
      this.field := field;
      this.reverse := DefaultReverse;
    }

    /** Reading a builder from its description: an absent `reverse` takes the default. */
    constructor FromDescription(d: SortFieldDescription)
      ensures field == d.field
      ensures d.reverse.Some? ==> reverse == d.reverse.value
      ensures d.reverse.None? ==> reverse == DefaultReverse
    {
      field := d.field;
      reverse := d.reverse.GetOr(DefaultReverse);
    }

    /** `reverse(reverse)`: sets only the flag and returns the same builder. */
    method Reverse(reverse: bool) returns (self: SortFieldBuilder)
      modifies this
      ensures self == this
      ensures this.reverse == reverse && field == old(field)
    {
      this.reverse := reverse;
      self := this;
    }

    /** `build()`: a sort field on the builder's field with the builder's flag. */
    function Build(): (s: SortField)
      reads this
      ensures s.field == field && s.reverse == reverse
    {
      SortField(field, reverse)
    }

    /** Writing a builder as a description: `reverse` is always present. */
    function Describe(): (d: SortFieldDescription)
      reads this
      ensures d.field == field && d.reverse == Some(reverse)
    {
      SortFieldDescription(field, Some(reverse))
    }
  }

  /** `new SortFieldBuilder(field).reverse(reverse).build()` keeps the field and
      the flag, whichever value the flag has. */
  method BuildReversed(field: string, reverse: bool) returns (s: SortField)
    ensures s.field == field && s.reverse == reverse
  {
    var builder := new SortFieldBuilder(field);
    builder := builder.Reverse(reverse);
    s := builder.Build();
  }

  /** `new SortFieldBuilder(field).build()` keeps the field and is not reversed. */
  method BuildDefault(field: string) returns (s: SortField)
    ensures s.field == field && s.reverse == DefaultReverse && !s.reverse
  {
    var builder := new SortFieldBuilder(field);
    s := builder.Build();
  }

  /** Reading a description and writing it back gives the description with the
      default filled in: an explicit flag of either value survives unchanged, an
      absent one comes back as `reverse: false`. */
  method RoundTrip(d: SortFieldDescription) returns (written: SortFieldDescription)
    ensures written == Normalize(d)
    ensures d.reverse.Some? ==> written == d
    ensures d.reverse.None? ==> written == SortFieldDescription(d.field, Some(false))
  {
    var builder := new SortFieldBuilder.FromDescription(d);
    written := builder.Describe();
  }
}
