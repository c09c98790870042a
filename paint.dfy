/** `Target::paintAsType` and its helpers: reinterpret a constant's bit pattern as
    another type of the same size during compile-time evaluation. The value is
    written into a zeroed 64-byte buffer in its own type's byte layout and read
    back in the target type's layout. */
module Paint {
  import opened Platform
  import opened ByteCodec

  predicate IsIntegerTag(t: Ty)
  {
    t == Tint32 || t == Tuns32 || t == Tint64 || t == Tuns64
  }

  predicate IsFloatTag(t: Ty)
  {
    t == Tfloat32 || t == Tfloat64
  }

  /** The types whose constants can be painted. */
  predicate IsPaintable(t: Ty)
  {
    IsIntegerTag(t) || IsFloatTag(t)
  }

  /** The byte size the type system gives the paintable types. */
  function SizeOf(t: Ty): (n: nat)
    requires IsPaintable(t)
    ensures n == 4 || n == 8
  {
    if t == Tint32 || t == Tuns32 || t == Tfloat32 then 4 else 8
  }

  /** The value of a floating-point constant (`real_t`): a finite number with
      +0.0 as its zero, or one of the IEEE 754 values that no real number
      stands for. A NaN keeps its sign bit and payload bits. */
  datatype FloatValue =
    | Finite(value: real)
    | NegativeZero
    | Infinity(negative: bool)
    | NaN(negative: bool, payload: nat)

  /** A constant expression: an integer literal holds a `dinteger_t`, a real
      literal a floating-point value; both carry their type tag. */
  datatype Expr =
    | IntegerExp(intValue: uint64, ty: Ty)
    | RealExp(realValue: FloatValue, ty: Ty)

  /** An integer literal has an integer type and a real literal a floating type. */
  predicate WellTyped(e: Expr)
  {
    (e.IntegerExp? && IsIntegerTag(e.ty)) || (e.RealExp? && IsFloatTag(e.ty))
  }

  /** The host's IEEE 754 binary32/binary64 layout, reached in the source through
      pointer casts: `store` converts a value to the type and gives its bytes,
      `load` reads a value of the type from bytes. Both are left uninterpreted. */
  datatype HostFloat = HostFloat(store: (Ty, FloatValue) -> seq<uint8>, load: (Ty, seq<uint8>) -> FloatValue)

  /** The C types fix the width: a `float` occupies 4 bytes and a `double` 8. */
  ghost predicate ValidHost(host: HostFloat)
  {
    forall t, x :: IsFloatTag(t) ==> |host.store(t, x)| == SizeOf(t)
  }

  /** The bytes a constant occupies in its own type's layout. */
  function Bytes(e: Expr, host: HostFloat): seq<uint8>
    requires WellTyped(e)
  {
    if e.IntegerExp? then Encoded(e.intValue, SizeOf(e.ty)) else host.store(e.ty, e.realValue)
  }

  /** `encodeInteger`: writes the value's bytes, least significant first, into
      the start of the buffer and leaves the rest of it alone. */
  method EncodeInteger(e: Expr, buffer: array<uint8>)
    requires e.IntegerExp? && IsIntegerTag(e.ty) && SizeOf(e.ty) <= buffer.Length
    modifies buffer
    ensures buffer[..SizeOf(e.ty)] == Encoded(e.intValue, SizeOf(e.ty))
    ensures buffer[SizeOf(e.ty)..] == old(buffer[SizeOf(e.ty)..])
  {
    var value := e.intValue;
    var size := SizeOf(e.ty);
    for p := 0 to size
      invariant forall k :: 0 <= k < p ==> buffer[k] as int == (value / Pow256(k)) % 256
      invariant buffer[size..] == old(buffer[size..])
    {
      var offset := p;
      buffer[offset] := ((value / Pow256(p)) % 256) as uint8;
    }
    forall k | 0 <= k < size
      ensures buffer[k] == Encoded(value, size)[k]
    {
      EncodedAt(value, size, k);
    }
  }

  /** `decodeInteger`: gathers the first `size` bytes of the buffer, least
      significant first, into an integer literal of type `ty`. */
  method DecodeInteger(ty: Ty, buffer: array<uint8>) returns (r: Expr)
    requires IsIntegerTag(ty) && SizeOf(ty) <= buffer.Length
    ensures r.IntegerExp? && r.ty == ty
    ensures r.intValue == Decoded(buffer[..SizeOf(ty)])
  {
    var value: nat := 0;
    var size := SizeOf(ty);
    for p := 0 to size
      invariant value == Decoded(buffer[..p])
    {
      var offset := p;
      assert buffer[..p + 1] == buffer[..p] + [buffer[offset]];
      DecodedAppend(buffer[..p], buffer[offset]);
      value := value + buffer[offset] as nat * Pow256(p);
    }
    Pow256AtMost8(size);
    r := IntegerExp(value, ty);
  }

  /** `encodeReal`: stores the real in the host layout of its type at the start
      of the buffer and leaves the rest of it alone. */
  method EncodeReal(e: Expr, buffer: array<uint8>, host: HostFloat)
    requires e.RealExp? && IsFloatTag(e.ty) && SizeOf(e.ty) <= buffer.Length
    requires ValidHost(host)
    modifies buffer
    ensures buffer[..SizeOf(e.ty)] == host.store(e.ty, e.realValue)
    ensures buffer[SizeOf(e.ty)..] == old(buffer[SizeOf(e.ty)..])
  {
    var bytes := host.store(e.ty, e.realValue);
    forall k | 0 <= k < |bytes| {
      buffer[k] := bytes[k];
    }
  }

  /** `decodeReal`: loads a value of type `ty` from the start of the buffer. */
  function DecodeReal(ty: Ty, buffer: array<uint8>, host: HostFloat): (r: Expr)
    requires IsFloatTag(ty) && SizeOf(ty) <= buffer.Length
    reads buffer
    ensures r.RealExp? && r.ty == ty && r.realValue == host.load(ty, buffer[..SizeOf(ty)])
  {
    RealExp(host.load(ty, buffer[..SizeOf(ty)]), ty)
  }

  /** The first half of `paintAsType`: the constant's bytes, in its own type's
      layout, at the start of the buffer; the rest of the buffer is untouched. */
  method EncodeExp(e: Expr, buffer: array<uint8>, host: HostFloat)
    requires WellTyped(e) && SizeOf(e.ty) <= buffer.Length
    requires ValidHost(host)
    modifies buffer
    ensures buffer[..SizeOf(e.ty)] == Bytes(e, host)
    ensures buffer[SizeOf(e.ty)..] == old(buffer[SizeOf(e.ty)..])
  {
    if IsIntegerTag(e.ty) {
      EncodeInteger(e, buffer);
    } else {
      EncodeReal(e, buffer, host);
    }
  }

  /** The second half of `paintAsType`: the first bytes of the buffer read as
      a constant of type `ty`. */
  method DecodeExp(ty: Ty, buffer: array<uint8>, host: HostFloat) returns (r: Expr)
    requires IsPaintable(ty) && SizeOf(ty) <= buffer.Length
    ensures r.ty == ty
    ensures IsIntegerTag(ty) ==> r.IntegerExp? && r.intValue == Decoded(buffer[..SizeOf(ty)])
    ensures IsFloatTag(ty) ==> r == RealExp(host.load(ty, buffer[..SizeOf(ty)]), ty)
  {
    if IsIntegerTag(ty) {
      r := DecodeInteger(ty, buffer);
    } else {
      r := DecodeReal(ty, buffer, host);
    }
  }

  /** `Target::paintAsType`: the constant `e` read back as type `ty`. The result
      is the target type's reading of exactly the bytes of `e`; between integer
      types that is the value reduced modulo 2^(8 * size). */
  method PaintAsType(e: Expr, ty: Ty, host: HostFloat) returns (r: Expr)
    requires WellTyped(e) && IsPaintable(ty)
    requires SizeOf(e.ty) == SizeOf(ty)
    requires ValidHost(host)
    ensures r.ty == ty
    ensures IsIntegerTag(ty) ==> r.IntegerExp? && r.intValue == Decoded(Bytes(e, host))
    ensures IsFloatTag(ty) ==> r == RealExp(host.load(ty, Bytes(e, host)), ty)
    ensures e.IntegerExp? && IsIntegerTag(ty) ==> r.IntegerExp? && r.intValue == e.intValue % Pow256(SizeOf(ty))
  {
    // Values of up to 512 bits fit.
    var buffer := new uint8[64](_ => 0);
    EncodeExp(e, buffer, host);
    r := DecodeExp(ty, buffer, host);
    if e.IntegerExp? {
      DecodeEncode(e.intValue, SizeOf(ty));
    }
  }
}
