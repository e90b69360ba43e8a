/** A run of text that shares one set of attributes, as the template parser hands it to
    a document sink. */
module TextChunks {
  import opened Wrappers
  import opened AttrMaps

  /** One SAX attribute: its qualified name and its value. */
  type SaxAttribute = (string, string)

  class TextChunk {
    var contents: Option<string>
    var attrs: AttrList
    /** Whether the chunk stands for a form value rather than text. */
    var isValue: bool

    /** The attribute list has no repeated key, as a Java map has none. */
    ghost predicate Valid()
      reads this
    {
      UniqueKeys(attrs)
    }

    /** The attribute map the chunk's getAttrs returns. */
    function Attrs(): map<string, string>
      reads this
    {
      ToMap(attrs)
    }

    /** A chunk with no contents and no attributes. */
    constructor ()
      ensures Valid()
      ensures contents == None && attrs == [] && !isValue
    {
      contents := None;
      attrs := [];
      isValue := false;
    }

    method SetContents(charas: Option<string>)
      modifies this
      ensures contents == charas
      ensures attrs == old(attrs) && isValue == old(isValue)
    {
      contents := charas;
    }

    /** Puts each SAX attribute in turn (a later attribute with the same name wins). */
    method AddAttrs(attributes: seq<SaxAttribute>)
      requires Valid()
      modifies this
      ensures Valid()
      ensures Attrs() == PutAll(old(Attrs()), attributes)
      ensures contents == old(contents) && isValue == old(isValue)
    {
      var i := 0;
      while i < |attributes|
        invariant 0 <= i <= |attributes|
        invariant Valid()
        invariant Attrs() == PutAll(old(Attrs()), attributes[..i])
        invariant contents == old(contents) && isValue == old(isValue)
      {
        var name := attributes[i].0;
        var value := attributes[i].1;
        PutKeepsUnique(attrs, name, value);
        attrs := Put(attrs, name, value);
        assert attributes[..i + 1][..i] == attributes[..i];
        i := i + 1;
      }
      assert attributes[..i] == attributes;
    }

    /** Puts every entry of `m`; the map's own iteration order does not matter, as its
        keys are distinct. */
    method AddAttrsFromMap(m: map<string, string>)
      requires Valid()
      modifies this
      ensures Valid()
      ensures Attrs() == old(Attrs()) + m
      ensures contents == old(contents) && isValue == old(isValue)
    {
      var remaining := m.Keys;
      ghost var done: map<string, string> := map[];
      while remaining != {}
        invariant remaining <= m.Keys && done.Keys == m.Keys - remaining
        invariant forall k :: k in done ==> done[k] == m[k]
        invariant Valid()
        invariant Attrs() == old(Attrs()) + done
        invariant contents == old(contents) && isValue == old(isValue)
        decreases remaining
      {
        var key :| key in remaining;
        PutKeepsUnique(attrs, key, m[key]);
        MergeThenPut(old(Attrs()), done, key, m[key]);
        attrs := Put(attrs, key, m[key]);
        done := done[key := m[key]];
        remaining := remaining - {key};
      }
      assert done == m;
    }

    /** Puts one attribute; a null key or value is ignored. */
    method AddAttr(key: Option<string>, value: Option<string>)
      requires Valid()
      modifies this
      ensures Valid()
      ensures key.Some? && value.Some? ==> Attrs() == old(Attrs())[key.value := value.value]
      ensures key.None? || value.None? ==> attrs == old(attrs)
      ensures contents == old(contents) && isValue == old(isValue)
    {
      if key.Some? && value.Some? {
        PutKeepsUnique(attrs, key.value, value.value);
        attrs := Put(attrs, key.value, value.value);
      }
    }

    /** A fresh chunk with a copy of this chunk's contents and attributes. Copying the
        contents of a chunk without contents throws, so it is excluded. */
    method Clone() returns (chunk: TextChunk)
      requires Valid() && contents.Some?
      ensures fresh(chunk) && chunk.Valid()
      ensures chunk.attrs == attrs && chunk.Attrs() == Attrs()
      ensures chunk.contents == contents && !chunk.isValue
    {
      chunk := new TextChunk();
      var i := 0;
      while i < |attrs|
        invariant 0 <= i <= |attrs|
        invariant chunk.attrs == attrs[..i]
        invariant chunk.contents == None && !chunk.isValue
        modifies chunk
      {
        assert attrs[i].0 !in KeySeq(attrs[..i]);
        chunk.attrs := Put(chunk.attrs, attrs[i].0, attrs[i].1);
        assert attrs[..i + 1] == attrs[..i] + [attrs[i]];
        i := i + 1;
      }
      assert attrs[..i] == attrs;
      chunk.contents := contents;
    }
  }

  lemma MergeThenPut(m: map<string, string>, d: map<string, string>, k: string, v: string)
    ensures (m + d)[k := v] == m + d[k := v]
  {
  }
}
