# Target platform facts of the D compiler front end

This project models `src/target.c` of the D compiler (dmd): the table of
target-platform facts the rest of the compiler reads (pointer size, runtime
class-descriptor size, the size, padding and alignment of the x87 extended
`real`, the C `long` and `long double` sizes, the static-data cap, C++
interoperability flags), the per-target queries built on them (alignment of
basic types, the OS mutex size, the `va_list` type, vector-type admissibility,
the default system linkage, the C++ symbol prefix on OSX), and `paintAsType`,
which reinterprets the bit pattern of a compile-time constant as another type
of the same size.

Modules:

- `Platform` (platform.dfy): the configuration (`Params`: OS family, 64-bit
  architecture flag, LP64 data-model flag), the basic-type tags `Ty`, the
  linkage kinds and a byte type.
- `TargetInit` (target_init.dfy): the facts as a value (`Facts`), the class
  `Target` whose fields are the static fields of the source, and its `Init`,
  which assigns them in the source's statement order, later steps overwriting
  earlier ones. `Init` is proved equal to `Resolved`, a field-by-field
  statement of the outcome, and `Resolved` is proved to satisfy `Consistent`,
  the cross-field invariants every later phase relies on.
- `TargetQueries` (target_queries.dfy): `alignsize`, `critsecsize`,
  `va_listType`, `checkVectorType`, `systemLinkage`, `prefixName`.
- `ByteCodec` (byte_codec.dfy): the little-endian layout of integers (`Encoded`,
  `Decoded`) with both round trips proved.
- `Paint` (paint.dfy): `encodeInteger` and `decodeInteger` as loops over an
  array, `encodeReal`/`decodeReal` over an uninterpreted host float layout, and
  `paintAsType` over a zero-initialised 64-byte array.

The source keeps one flag per OS family; the model takes the family as one
value of an enumeration (`Other` when no flag is set), so it assumes that
exactly one flag is set. The `assert(0)` that ends each OS chain becomes the
precondition `IsSupported(cfg.os)`; the asserts of `alignsize` and
`paintAsType` become preconditions too. The quirks of `_init` are kept as
written: 64-bit OpenBSD and DragonFlyBSD keep the 12/2/4 real layout and a
4-byte `long` (src/target.c:133 leaves them out), `reverseCppOverloads` is
assigned on Windows only (elsewhere it keeps the value it had; static storage
starts at `false`), and the static-data cap is `0x7FFFFFFF` on purpose.

Bit operations of the C code are written arithmetically: `(value >> (p * 8)) &
0xFF` as `(value / 256^p) % 256`, and `value |= byte << (p * 8)` as
`value + byte * 256^p`, which is the same number because `value < 256^p` before
the step, so the two operands share no bit.

## Model

| member | source | states |
|---|---|---|
| `TargetInit.Target.constructor` | src/target.c:26-35 | static fields start at zero and `false` |
| `TargetInit.Target.Init` | src/target.c:77-151 | after the ordered overwrite chain every field equals the table of `Resolved`: `ptrSize` 8 and `classInfoSize` 152 exactly when LP64 (else 4 and 76); cap `0x7FFFFFFF` except `0x1000000` on 32-bit-pointer Windows; real 12/2/4 on the ELF families, 16/6/16 on OSX, 10/0/2 on Windows, with 64-bit Linux, FreeBSD and Solaris moving to 16/6/16 and 8-byte `long`, 64-bit OSX gaining only 8-byte `long`, 64-bit OpenBSD/DragonFlyBSD unchanged; `long double` is the real size except 8 on 64-bit Windows; C++ exceptions on Linux, FreeBSD and OSX only; `reverseCppOverloads == !is64bit` on Windows and untouched elsewhere; unknown OS excluded |
| `TargetInit.Resolved` | src/target.c:77-151 | the resolved facts are mutually consistent: pointer 4 or 8 bytes, class descriptor 19 pointer words, static-data cap positive and at most `int.max`, real size is 10 value bytes plus padding, real alignment a power of two dividing the real size, `long` 4 or 8, `long double` the real size or 8 |
| `TargetQueries.AlignSize` | src/target.c:163-194 | 80-bit real/imaginary/complex align to `realalignsize`; on POSIX targets `complex float` aligns to 4 and the 8-byte scalars to 8 on 64-bit, 4 otherwise; every other case (Windows included) is the natural size; with consistent facts the alignment is a power of two whenever the natural size is |
| `TargetQueries.CritSecSize` | src/target.c:211-253 | Windows 40/24 by LP64; Linux 40 if LP64, else 32 on 64-bit, else 24; on the BSDs the mutex size equals the target pointer size of `Resolved`; OSX 64/44; Solaris 24; unknown OS excluded |
| `TargetQueries.CritSecSizeIgnores64bitOffLinux` | src/target.c:211-253 | the architecture flag changes the mutex size on Linux only |
| `TargetQueries.VaListType` | src/target.c:260-287 | the result is `__va_list_tag*` exactly on a 64-bit non-Windows target, `char*` otherwise; unknown OS excluded |
| `TargetQueries.CheckVectorType` | src/target.c:428-455 | verdict in 0..3; 1 exactly when neither 64-bit nor OSX, whatever the size; 2 exactly when supported and the size is not 16 or 32; 3 exactly when supported, well sized and the element type is outside the eleven legal tags; 0 exactly when all three checks pass |
| `TargetQueries.SystemLinkage` | src/target.c:519-522 | Windows linkage exactly on Windows, C linkage otherwise, so never one that `prefixName` alters |
| `TargetQueries.PrefixName` | src/target.c:471-483 | prepends exactly one `'_'` for C++ linkage on OSX and leaves the buffer unchanged otherwise |
| `ByteCodec.Decoded` | src/target.c:306-320 | a value gathered from n bytes is below 2^(8n) |
| `ByteCodec.EncodedAt` | src/target.c:299-303 | byte p of the n-byte encoding of v is `(v >> (p * 8)) & 0xFF`, so the layout is little-endian |
| `ByteCodec.DecodedAppend` | src/target.c:313-317 | one more loop step of `decodeInteger` adds the next byte at weight 2^(8p) |
| `ByteCodec.DecodeEncode` | src/target.c:294-320 | decoding the n-byte little-endian encoding of v gives v mod 2^(8n) |
| `ByteCodec.DecodeEncodeFits` | src/target.c:294-320 | a value below 2^(8n) survives n-byte encoding and decoding unchanged, as a corollary of `DecodeEncode` |
| `ByteCodec.EncodeDecode` | src/target.c:294-320 | encoding a decoded byte sequence to its own length gives the sequence back |
| `ByteCodec.DecodedInjective` | src/target.c:306-320 | equal-length byte sequences with equal values are equal |
| `Paint.SizeOf` | src/target.c:383 | the paintable types are 4 or 8 bytes, so every encoding fits the 64-byte buffer and `dinteger_t` |
| `Paint.EncodeInteger` | src/target.c:294-304 | byte p of the buffer holds bits 8p..8p+7 of the value for p below the size; bytes from the size on are untouched |
| `Paint.DecodeInteger` | src/target.c:308-320 | the result is an integer literal of the requested type whose value is the little-endian reading of the first size bytes |
| `Paint.EncodeReal` | src/target.c:323-342 | the host layout of the real, converted to its type, fills the first size bytes; the rest is untouched |
| `Paint.DecodeReal` | src/target.c:346-369 | the literal has the requested floating type and holds the host's reading of the first size bytes of the buffer |
| `Paint.EncodeExp` | src/target.c:385-402 | the first dispatch writes the constant's own-type bytes and nothing beyond its size |
| `Paint.DecodeExp` | src/target.c:404-419 | the second dispatch reads the first size bytes as an integer literal (little-endian) or, for a floating tag, as the host's value of that type |
| `Paint.PaintAsType` | src/target.c:377-422 | with equal sizes and paintable tags, the result has the requested type and is that type's reading of exactly the constant's bytes; between integer types the value becomes v mod 2^(8 * size) |

## Left out

- `initFloatConstants` and the three float-property tables (src/target.c:37-75, 153-155): they copy the host's `std::numeric_limits` values (NaN, infinity, epsilon, digit counts), which are floating-point facts of the host.
- The bodies of `encodeReal` and `decodeReal` (src/target.c:323-369): the IEEE 754 binary32/binary64 layout reached by pointer casts is the host's; it is the pair of uninterpreted functions `HostFloat.store` and `HostFloat.load`, and no float round trip is claimed.
- `Paint.EncodeReal`, `Paint.DecodeExp`: a floating constant is a `FloatValue` (a finite real, −0.0, ±infinity, or a NaN with sign and payload), not an 80-bit `longdouble`; rounding to `float`/`double` precision is inside the uninterpreted `HostFloat.store`, and the quieting of signalling NaNs by `ldouble` on x87 hosts (src/target.c:355, 361) inside `HostFloat.load`, so no bit pattern is claimed to survive a float round trip.
- The 4- and 8-byte widths of `float` and `double` are the assumption `ValidHost` on the host layout rather than a property of C types.
- `toCppMangle` and `cppTypeInfoMangle` (src/target.c:485-505): they forward to the Itanium and MSVC mangling routines, which are not part of this model.
- `cppTypeMangle` (always null), `loadModule` (empty) and `fieldalign` (src/target.c:200-203), which forwards to the type system's `alignsize`, not part of this model.
- `Type::size`: a parameter (`naturalSize`) of `AlignSize`, and `SizeOf` for the six paintable tags.
- `Paint.DecodeInteger`, `Paint.PaintAsType`: `IntegerExp` construction normalises a literal to its type (sign extension for signed types), and that code is not part of this model, so both return the raw gathered value: `uns32` `0xFFFFFFFF` painted as `int32` gives `0xFFFF_FFFF` here where the compiler holds `0xFFFF_FFFF_FFFF_FFFF`.
- The `TypeIdentifier` built from `Identifier::idPool("__va_list_tag")` and `Type::tchar->pointerTo()` are the two values of `VaList`; the `OutBuffer` is a byte sequence; `Loc` is dropped.
- Several OS flags set at once: the model's enumeration admits one family per configuration.
