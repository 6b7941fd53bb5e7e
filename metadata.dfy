/**
 * The metadata sidecar of an exported document: a fixed-shape text with the
 * prolog line "<?xml>", a <metadata> wrapper, a <sourcePath> element and one
 * element per property whose value is not null, in property order. Neither
 * names nor values are escaped.
 */
module Metadata {

  import opened Optional

  /**
   * A document property as the exporter reads it: its query name and its
   * values serialised to one string, or None when the property has no value.
   */
  datatype Property = Property(queryName: string, value: Option<string>)

  /** The opening lines, up to and including the <sourcePath> element. */
  function Header(sourcePath: string): string {
    "<?xml>\n" + "<metadata>\n" + "<sourcePath>" + sourcePath + "</sourcePath>\n"
  }

  const Footer: string := "</metadata>\n"

  /** One property line, <q>v</q>. */
  function Element(queryName: string, value: string): string {
    "<" + queryName + ">" + value + "</" + queryName + ">\n"
  }

  /** The property lines of a property list: an element for each property with a value. */
  function PropertyLines(props: seq<Property>): string {
    if props == [] then ""
    else
      var p := props[0];
      (if p.value.Some? then Element(p.queryName, p.value.value) else "") + PropertyLines(props[1..])
  }

  /** The whole metadata document for a document filed under `sourcePath`. */
  function MetadataXml(sourcePath: string, props: seq<Property>): string {
    Header(sourcePath) + PropertyLines(props) + Footer
  }

  /** The properties that carry a value, in their original order. */
  function Valued(props: seq<Property>): (r: seq<Property>)
    ensures |r| <= |props|
    ensures forall i :: 0 <= i < |r| ==> r[i].value.Some?
    ensures forall p :: p in props && p.value.Some? <==> p in r
  {
    if props == [] then []
    else if props[0].value.Some? then [props[0]] + Valued(props[1..])
    else Valued(props[1..])
  }

  /** A single property is kept exactly when it has a value. */
  lemma ValuedSingle(p: Property)
    ensures Valued([p]) == if p.value.Some? then [p] else []
  {
    assert [p][1..] == [];
  }

  /**
   * Filtering a concatenation filters each part, in order. With ValuedSingle
   * this fixes Valued: the valued properties, in list order, each once per
   * occurrence.
   */
  lemma {:induction false} ValuedAppend(a: seq<Property>, b: seq<Property>)
    ensures Valued(a + b) == Valued(a) + Valued(b)
  {
    if a == [] {
      assert a + b == b;
    } else {
      assert (a + b)[0] == a[0];
      assert (a + b)[1..] == a[1..] + b;
      ValuedAppend(a[1..], b);
    }
  }

  /** The lines of a concatenation are the concatenation of the lines. */
  lemma {:induction false} PropertyLinesAppend(a: seq<Property>, b: seq<Property>)
    ensures PropertyLines(a + b) == PropertyLines(a) + PropertyLines(b)
  {
    if a == [] {
      assert a + b == b;
    } else {
      assert (a + b)[1..] == a[1..] + b;
      PropertyLinesAppend(a[1..], b);
    }
  }

  /** Dropping the properties without a value leaves the property lines as they are. */
  lemma {:induction false} ValuedLines(props: seq<Property>)
    ensures PropertyLines(props) == PropertyLines(Valued(props))
  {
    if props != [] {
      ValuedLines(props[1..]);
      if props[0].value.Some? {
        var v := [props[0]] + Valued(props[1..]);
        assert v[0] == props[0] && v[1..] == Valued(props[1..]);
      }
    }
  }

  /** A property without a value never contributes to the document. */
  lemma NullPropertiesIgnored(sourcePath: string, props: seq<Property>)
    ensures MetadataXml(sourcePath, props) == MetadataXml(sourcePath, Valued(props))
  {
    ValuedLines(props);
  }

  /** When every value is null, only the prolog, the source path and the wrapper remain. */
  lemma {:induction false} AllNullIsSkeleton(sourcePath: string, props: seq<Property>)
    requires forall i :: 0 <= i < |props| ==> props[i].value.None?
    ensures MetadataXml(sourcePath, props)
         == "<?xml>\n<metadata>\n<sourcePath>" + sourcePath + "</sourcePath>\n</metadata>\n"
  {
    if props != [] {
      AllNullIsSkeleton(sourcePath, props[1..]);
    }
  }

  /**
   * The i-th property, when it has a value, appears as its own element at the
   * offset after the header and the lines of the properties before it.
   */
  lemma ElementInPlace(sourcePath: string, props: seq<Property>, i: nat)
    requires i < |props| && props[i].value.Some?
    ensures var text := MetadataXml(sourcePath, props);
            var e := Element(props[i].queryName, props[i].value.value);
            var k := |Header(sourcePath)| + |PropertyLines(props[..i])|;
            k + |e| <= |text| && text[k..k + |e|] == e
  {
    assert props == props[..i] + ([props[i]] + props[i + 1..]);
    PropertyLinesAppend(props[..i], [props[i]] + props[i + 1..]);
    assert ([props[i]] + props[i + 1..])[1..] == props[i + 1..];
  }

  /** The StringBuilder loop that assembles the metadata text. */
  method BuildMetadata(sourcePath: string, props: seq<Property>) returns (text: string)
    ensures text == MetadataXml(sourcePath, props)
  {
    var sb := "<?xml>\n";
    sb := sb + "<metadata>\n";
    sb := sb + "<sourcePath>" + sourcePath + "</sourcePath>\n";
    for i := 0 to |props|
      invariant sb == Header(sourcePath) + PropertyLines(props[..i])
    {
      var p := props[i];
      if p.value.Some? {
        sb := sb + Element(p.queryName, p.value.value);
      }
      assert props[..i + 1] == props[..i] + [p];
      PropertyLinesAppend(props[..i], [p]);
    }
    assert props[..|props|] == props;
    sb := sb + "</metadata>\n";
    text := sb;
  }
}
