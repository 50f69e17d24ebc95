/**
 * The vertex layout builder of src/renderer/vertex_array.c: VertLayoutPush appends an attribute
 * and grows the stride; VABindLayout gives every attribute the byte offset of the attributes before
 * it. The glVertexAttribPointer calls VABindLayout makes are its result.
 */
module VertexArray {

  /** The GL type enumerants the builder knows. */
  const GlUnsignedByte: nat := 0x1401
  const GlUnsignedInt: nat := 0x1405
  const GlFloat: nat := 0x1406

  /** Range of `u32` (the stride) and of `size_t` (the running offset). */
  const U32Limit: nat := 0x1_0000_0000
  const SizeLimit: nat := 0x1_0000_0000_0000_0000

  datatype VertexAttribute = VertexAttribute(count: nat, glType: nat, normalized: nat)

  /** Bytes per component: sizeof(float), sizeof(unsigned int), sizeof(unsigned char); an
      unsupported type contributes nothing (both switches only report it). */
  function ComponentBytes(glType: nat): nat
  {
    if glType == GlFloat then 4
    else if glType == GlUnsignedInt then 4
    else if glType == GlUnsignedByte then 1
    else 0
  }

  function AttributeBytes(a: VertexAttribute): nat
  {
    a.count * ComponentBytes(a.glType)
  }

  /** Byte size of a run of attributes, summed from the right so that appending one is one step. */
  function TotalBytes(attrs: seq<VertexAttribute>): nat
  {
    if attrs == [] then 0 else TotalBytes(attrs[..|attrs| - 1]) + AttributeBytes(attrs[|attrs| - 1])
  }

  /** A VertexLayout struct as a value: what VABindLayout receives and what a VertexArray keeps. */
  datatype LayoutValue = LayoutValue(attributes: array<VertexAttribute>, count: nat, stride: nat)

  /** One glVertexAttribPointer(index, count, type, normalized, stride, offset) call. */
  datatype AttribPointer = AttribPointer(index: nat, count: nat, glType: nat, normalized: nat, stride: nat, offset: nat)

  /** The call VABindLayout makes for attribute `i` of `attrs` in a layout of stride `stride`. */
  function PointerFor(attrs: seq<VertexAttribute>, stride: nat, i: nat): AttribPointer
    requires i < |attrs|
  {
    AttribPointer(i, attrs[i].count, attrs[i].glType, attrs[i].normalized, stride, TotalBytes(attrs[..i]) % SizeLimit)
  }

  // ---------------------------------------------------------------------------------------------
  // Offsets are prefix sums

  /** A prefix of a run never has more bytes than a longer prefix. */
  lemma {:induction false} PrefixBytesMonotone(attrs: seq<VertexAttribute>, i: nat, j: nat)
    requires i <= j <= |attrs|
    ensures TotalBytes(attrs[..i]) <= TotalBytes(attrs[..j])
    decreases j - i
  {
    if i < j {
      PrefixBytesMonotone(attrs, i, j - 1);
      assert attrs[..j][..j - 1] == attrs[..j - 1];
    }
  }

  /** Appending attribute i to the prefix before it adds exactly its bytes. */
  lemma PrefixStep(attrs: seq<VertexAttribute>, i: nat)
    requires i < |attrs|
    ensures TotalBytes(attrs[..i + 1]) == TotalBytes(attrs[..i]) + AttributeBytes(attrs[i])
  {
    assert attrs[..i + 1][..i] == attrs[..i];
  }

  /** Every attribute lies inside the vertex: it starts after the bytes of the attributes before it
      and ends within the total. */
  lemma AttributeWithinTotal(attrs: seq<VertexAttribute>, i: nat)
    requires i < |attrs|
    ensures TotalBytes(attrs[..i]) + AttributeBytes(attrs[i]) <= TotalBytes(attrs)
  {
    PrefixStep(attrs, i);
    PrefixBytesMonotone(attrs, i + 1, |attrs|);
    assert attrs[..|attrs|] == attrs;
  }

  /** For a layout whose stride was built by pushes (the byte total modulo 2^32) and whose total fits
      a u32, the offset after the last attribute equals the stride, and every attribute's bytes lie
      within one stride. */
  lemma FinalOffsetIsStride(attrs: seq<VertexAttribute>, stride: nat)
    requires stride == TotalBytes(attrs) % U32Limit
    requires TotalBytes(attrs) < U32Limit
    ensures attrs != [] ==> PointerFor(attrs, stride, |attrs| - 1).offset + AttributeBytes(attrs[|attrs| - 1]) == stride
    ensures forall i :: 0 <= i < |attrs| ==> PointerFor(attrs, stride, i).offset + AttributeBytes(attrs[i]) <= stride
  {
    var total := TotalBytes(attrs);
    SmallRemainder(total, U32Limit);
    forall i | 0 <= i < |attrs|
      ensures PointerFor(attrs, stride, i).offset + AttributeBytes(attrs[i]) <= stride
    {
      AttributeWithinTotal(attrs, i);
      SmallRemainder(TotalBytes(attrs[..i]), SizeLimit);
    }
    if attrs != [] {
      var last := |attrs| - 1;
      PrefixStep(attrs, last);
      assert attrs[..last + 1] == attrs;
      AttributeWithinTotal(attrs, last);
      SmallRemainder(TotalBytes(attrs[..last]), SizeLimit);
    }
  }

  /** Pushing one attribute onto a run whose stride tracks its byte total keeps the stride tracking:
      adding the attribute's bytes to the wrapped total wraps to the new total. */
  lemma StrideStep(before: seq<VertexAttribute>, a: VertexAttribute)
    ensures (TotalBytes(before) % U32Limit + AttributeBytes(a)) % U32Limit == TotalBytes(before + [a]) % U32Limit
  {
    assert (before + [a])[..|before + [a]| - 1] == before;
  }

  /** The running offset after attribute i, wrapped as a size_t, is the wrapped byte total of the
      attributes up to and including i. */
  lemma OffsetStep(attrs: seq<VertexAttribute>, i: nat)
    requires i < |attrs|
    ensures (TotalBytes(attrs[..i]) % SizeLimit + AttributeBytes(attrs[i])) % SizeLimit == TotalBytes(attrs[..i + 1]) % SizeLimit
  {
    PrefixStep(attrs, i);
  }

  /** A value below the modulus is its own remainder. */
  lemma SmallRemainder(x: nat, m: nat)
    requires x < m
    ensures x % m == x
  {
  }

  /** The renderer's layout: position (3 floats), normal (3 floats), texture coordinates (2 floats)
      give a 32-byte stride and offsets 0, 12 and 24. */
  lemma RendererLayoutOffsets()
    ensures var attrs := [VertexAttribute(3, GlFloat, 0), VertexAttribute(3, GlFloat, 0), VertexAttribute(2, GlFloat, 0)];
            TotalBytes(attrs) == 32 &&
            TotalBytes(attrs[..0]) == 0 && TotalBytes(attrs[..1]) == 12 && TotalBytes(attrs[..2]) == 24
  {
    var attrs := [VertexAttribute(3, GlFloat, 0), VertexAttribute(3, GlFloat, 0), VertexAttribute(2, GlFloat, 0)];
    assert attrs[..1][..0] == [];
    assert TotalBytes(attrs[..1]) == 12;
    assert attrs[..2][..1] == attrs[..1];
    assert TotalBytes(attrs[..2]) == 24;
    assert attrs[..|attrs| - 1] == attrs[..2];
  }

  // ---------------------------------------------------------------------------------------------
  // The layout and the vertex array

  /** A VertexLayout being filled in place: its attribute slice, how many are set, the stride. */
  class VertexLayout {
    var attributes: array<VertexAttribute>
    var count: nat
    var stride: nat

    ghost predicate Valid()
      reads this
    {
      count <= attributes.Length && stride < U32Limit
    }

    /** The stride is the byte total of the pushed attributes, wrapped to a u32. */
    ghost predicate StrideTracks()
      reads this, attributes
      requires Valid()
    {
      stride == TotalBytes(attributes[..count]) % U32Limit
    }

    /** The struct's current value. */
    function Value(): LayoutValue
      reads this
    {
      LayoutValue(attributes, count, stride)
    }

    /** `VertexLayout l = {0}` with `l.attributes` pointed at a slice of attribute slots. */
    constructor (slots: array<VertexAttribute>)
      ensures Valid() && StrideTracks()
      ensures attributes == slots && count == 0 && stride == 0
    {
      attributes := slots;
      count := 0;
      stride := 0;
    }

    /** VertLayoutPush: write the attribute at `attributes[count]`, grow the stride by its size (by
        nothing for an unsupported type) and count it. The source does not check the capacity. */
    method VertLayoutPush(count: nat, glType: nat, normalized: nat)
      requires Valid()
      requires this.count < attributes.Length
      modifies this`count, this`stride, attributes
      ensures Valid()
      ensures this.count == old(this.count) + 1
      ensures attributes[..this.count] == old(attributes[..this.count]) + [VertexAttribute(count, glType, normalized)]
      ensures forall i :: this.count <= i < attributes.Length ==> attributes[i] == old(attributes[i])
      ensures stride == (old(stride) + AttributeBytes(VertexAttribute(count, glType, normalized))) % U32Limit
      ensures old(StrideTracks()) ==> StrideTracks()
    {
      ghost var before := attributes[..this.count];
      ghost var tracked := stride == TotalBytes(before) % U32Limit;
      var attribute := VertexAttribute(count, glType, normalized);
      attributes[this.count] := attribute;
      var bytes := 0;
      if glType == GlFloat {
        bytes := count * 4;
      } else if glType == GlUnsignedInt {
        bytes := count * 4;
      } else if glType == GlUnsignedByte {
        bytes := count * 1;
      }
      assert bytes == AttributeBytes(attribute);
      if tracked {
        StrideStep(before, attribute);
      }
      stride := (stride + bytes) % U32Limit;
      this.count := this.count + 1;
      assert attributes[..this.count] == before + [attribute];
    }
  }

  /** A vertex array object: its GL name and the layout last bound to it. */
  class VertexArray {
    var rendererId: nat
    var layout: LayoutValue

    /** GenVertArr: a new vertex array named `rendererId` by GL. The source leaves `layout`
        uninitialised; the model starts it empty, and nothing reads it before VABindLayout
        stores one. */
    constructor (rendererId: nat)
      ensures this.rendererId == rendererId && layout.count == 0
    {
      this.rendererId := rendererId;
      var none := new VertexAttribute[0];
      layout := LayoutValue(none, 0, 0);
    }

    /** VABindLayout: keep the layout, then describe attribute i to GL at the running offset, which
        is the byte size of the attributes before it, with the layout's stride. */
    method VABindLayout(vl: LayoutValue) returns (calls: seq<AttribPointer>)
      requires vl.count <= vl.attributes.Length
      modifies this`layout
      ensures layout == vl
      ensures |calls| == vl.count
      ensures forall i :: 0 <= i < vl.count ==> calls[i] == PointerFor(vl.attributes[..vl.count], vl.stride, i)
    {
      layout := vl;
      ghost var attrs := vl.attributes[..vl.count];
      var offset := 0;
      calls := [];
      var attribIdx := 0;
      while attribIdx < vl.count
        invariant 0 <= attribIdx <= vl.count && layout == vl
        invariant offset == TotalBytes(attrs[..attribIdx]) % SizeLimit
        invariant |calls| == attribIdx
        invariant forall i :: 0 <= i < attribIdx ==> calls[i] == PointerFor(attrs, vl.stride, i)
      {
        var attribute := vl.attributes[attribIdx];
        assert attribute == attrs[attribIdx];
        calls := calls + [AttribPointer(attribIdx, attribute.count, attribute.glType, attribute.normalized, vl.stride, offset)];
        ghost var before := offset;
        if attribute.glType == GlFloat {
          offset := (offset + attribute.count * 4) % SizeLimit;
        } else if attribute.glType == GlUnsignedInt {
          offset := (offset + attribute.count * 4) % SizeLimit;
        } else if attribute.glType == GlUnsignedByte {
          offset := (offset + attribute.count * 1) % SizeLimit;
        }
        assert offset == (before + AttributeBytes(attribute)) % SizeLimit;
        OffsetStep(attrs, attribIdx);
        attribIdx := attribIdx + 1;
      }
    }
  }

  /** The renderer's cube layout: three attribute slots, pushes of 3, 3 and 2 floats, then binding:
      stride 32 and offsets 0, 12, 24 for attributes 0, 1, 2. */
  method CubeLayout(rendererId: nat) returns (calls: seq<AttribPointer>)
    ensures |calls| == 3
    ensures calls[0] == AttribPointer(0, 3, GlFloat, 0, 32, 0)
    ensures calls[1] == AttribPointer(1, 3, GlFloat, 0, 32, 12)
    ensures calls[2] == AttribPointer(2, 2, GlFloat, 0, 32, 24)
  {
    var attrs := [VertexAttribute(3, GlFloat, 0), VertexAttribute(3, GlFloat, 0), VertexAttribute(2, GlFloat, 0)];
    var slots := new VertexAttribute[3](_ => VertexAttribute(0, 0, 0));
    var layout := new VertexLayout(slots);
    layout.VertLayoutPush(3, GlFloat, 0);
    layout.VertLayoutPush(3, GlFloat, 0);
    layout.VertLayoutPush(2, GlFloat, 0);
    assert layout.count == 3 && layout.stride == 32;
    assert layout.attributes[..3] == attrs;
    var va := new VertexArray(rendererId);
    var value := layout.Value();
    assert value.attributes[..value.count] == attrs && value.stride == 32;
    RendererLayoutOffsets();
    calls := va.VABindLayout(value);
    assert calls[0] == PointerFor(attrs, 32, 0);
    assert calls[1] == PointerFor(attrs, 32, 1);
    assert calls[2] == PointerFor(attrs, 32, 2);
  }
}
