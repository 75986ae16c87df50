/**
 * The data objects of an EMV QR Code (Merchant-Presented Mode) payload as `BrCode.generate_qrcp`
 * hands them to its builder: an identifier (the "tag") with either a text value or, for a
 * template, a list of nested data objects. The tag numbers are those the EMV QR Code
 * Specification for Payment Systems assigns to the fields the builder's setters fill in.
 */
module Emv {

  import opened Wrappers

  /** A data object identifier, "00" to "99", which the payload writes as two decimal digits. */
  type Tag = n: nat | n < 100

  datatype DataObject =
    | Primitive(tag: Tag, value: string)
    | Template(tag: Tag, children: seq<DataObject>)

  // Top-level data objects.
  const PayloadFormatIndicator: Tag := 0
  const MerchantAccountInformation: Tag := 26
  const MerchantCategoryCode: Tag := 52
  const TransactionCurrency: Tag := 53
  const TransactionAmount: Tag := 54
  const CountryCode: Tag := 58
  const MerchantName: Tag := 59
  const MerchantCity: Tag := 60
  const AdditionalDataFieldTemplate: Tag := 62

  // Inside a merchant account information template.
  const GloballyUniqueIdentifier: Tag := 0

  // Inside the additional data field template.
  const ReferenceLabel: Tag := 5

  /** No two data objects of the list carry the same tag. */
  predicate DistinctTags(objects: seq<DataObject>) {
    forall i, j :: 0 <= i < j < |objects| ==> objects[i].tag != objects[j].tag
  }

  /** The data object of the list that carries `tag`, the first one if several do. */
  function Find(objects: seq<DataObject>, tag: Tag): (r: Option<DataObject>)
  {
    if objects == [] then None
    else if objects[0].tag == tag then Some(objects[0])
    else Find(objects[1..], tag)
  }

  /** A tag no data object carries is not found. */
  lemma {:induction false} FindAbsent(objects: seq<DataObject>, tag: Tag)
    requires forall j :: 0 <= j < |objects| ==> objects[j].tag != tag
    ensures Find(objects, tag) == None
  {
    if objects != [] {
      FindAbsent(objects[1..], tag);
    }
  }

  /** Looking up in a concatenation looks in the first part, then in the second. */
  lemma {:induction false} FindConcat(a: seq<DataObject>, b: seq<DataObject>, tag: Tag)
    ensures Find(a + b, tag) == if Find(a, tag).Some? then Find(a, tag) else Find(b, tag)
  {
    if a == [] {
      assert a + b == b;
    } else {
      assert (a + b)[0] == a[0];
      assert (a + b)[1..] == a[1..] + b;
      FindConcat(a[1..], b, tag);
    }
  }

  /** Lookups after putting `o` in place of `objects[i]`, the first data object with the tag of `o`. */
  lemma FindReplaced(objects: seq<DataObject>, i: nat, o: DataObject, tag: Tag)
    requires i < |objects| && objects[i].tag == o.tag
    requires forall j :: 0 <= j < i ==> objects[j].tag != o.tag
    ensures Find(objects[..i] + [o] + objects[i + 1..], tag) == if tag == o.tag then Some(o) else Find(objects, tag)
  {
    var before, after := objects[..i], objects[i + 1..];
    FindAbsent(before, o.tag);
    assert objects == before + [objects[i]] + after;
    FindConcat(before + [o], after, tag);
    FindConcat(before, [o], tag);
    FindConcat(before + [objects[i]], after, tag);
    FindConcat(before, [objects[i]], tag);
  }

  /** Looking up past the first data object. */
  lemma FindCons(o: DataObject, rest: seq<DataObject>, tag: Tag)
    ensures Find([o] + rest, tag) == if o.tag == tag then Some(o) else Find(rest, tag)
  {
    assert ([o] + rest)[1..] == rest;
  }

  /** The first data object carrying `tag` is the one found. */
  lemma FindFirst(objects: seq<DataObject>, i: nat, tag: Tag)
    requires i < |objects| && objects[i].tag == tag
    requires forall j :: 0 <= j < i ==> objects[j].tag != tag
    ensures Find(objects, tag) == Some(objects[i])
  {
    FindAbsent(objects[..i], tag);
    assert objects == objects[..i] + objects[i..];
    FindConcat(objects[..i], objects[i..], tag);
  }

  /** Lookups after appending `o`, whose tag is not set yet. */
  lemma FindAppended(objects: seq<DataObject>, o: DataObject, tag: Tag)
    requires forall j :: 0 <= j < |objects| ==> objects[j].tag != o.tag
    ensures Find(objects + [o], tag) == if tag == o.tag then Some(o) else Find(objects, tag)
  {
    FindAbsent(objects, o.tag);
    FindConcat(objects, [o], tag);
  }

  /**
   * A setter of the payload builder: the data object takes the place of the one with the same
   * tag, or is appended when that tag is not set yet. Afterwards the tag yields `o` and every
   * other tag what it yielded before; tags stay distinct.
   */
  method Set(objects: seq<DataObject>, o: DataObject) returns (r: seq<DataObject>)
    ensures forall tag :: Find(r, tag) == if tag == o.tag then Some(o) else Find(objects, tag)
    ensures DistinctTags(objects) ==> DistinctTags(r)
    ensures Find(objects, o.tag).None? ==> r == objects + [o]
    ensures Find(objects, o.tag).Some? ==>
      exists i :: 0 <= i < |objects| && objects[i].tag == o.tag
        && (forall j :: 0 <= j < i ==> objects[j].tag != o.tag)
        && r == objects[..i] + [o] + objects[i + 1..]
  {
    var i := 0;
    while i < |objects| && objects[i].tag != o.tag
      invariant 0 <= i <= |objects|
      invariant forall j :: 0 <= j < i ==> objects[j].tag != o.tag
    {
      i := i + 1;
    }
    if i == |objects| {
      r := objects + [o];
      FindAbsent(objects, o.tag);
      forall tag ensures Find(r, tag) == if tag == o.tag then Some(o) else Find(objects, tag) {
        FindAppended(objects, o, tag);
      }
      assert forall m :: 0 <= m < |objects| ==> r[m] == objects[m];
    } else {
      r := objects[..i] + [o] + objects[i + 1..];
      FindFirst(objects, i, o.tag);
      forall tag ensures Find(r, tag) == if tag == o.tag then Some(o) else Find(objects, tag) {
        FindReplaced(objects, i, o, tag);
      }
      assert |r| == |objects| && r[i] == o;
      assert forall m :: 0 <= m < |r| && m != i ==> r[m] == objects[m];
    }
  }
}
