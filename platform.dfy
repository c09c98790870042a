/** The compiler's view of the selected platform (the part of `global.params`
    that src/target.c consults), the basic-type tags it dispatches on and the
    linkage kinds. */
module Platform {

  /** The operating-system family. The compiler keeps one flag per family;
      exactly one of them is set for a configured target. `Other` stands for
      none of them being set, which the code treats as a fatal error. */
  datatype OS = Linux | FreeBSD | OpenBSD | DragonFlyBSD | Solaris | OSX | Windows | Other

  /** The configuration read by every query: the OS family, whether the
      architecture is 64-bit, and whether the data model is LP64. */
  datatype Params = Params(os: OS, is64bit: bool, isLP64: bool)

  /** A family the code recognises (every branch chain ends in `assert(0)` otherwise). */
  predicate IsSupported(os: OS)
  {
    os != Other
  }

  /** The ELF-based POSIX families: the first branch of `_init`. */
  predicate IsElfPosix(os: OS)
  {
    os == Linux || os == FreeBSD || os == OpenBSD || os == DragonFlyBSD || os == Solaris
  }

  /** All POSIX families, OSX included: the group `alignsize` and `va_listType` test. */
  predicate IsPosix(os: OS)
  {
    IsElfPosix(os) || os == OSX
  }

  /** The BSD families, whose `pthread_mutex_t` is a single pointer. */
  predicate IsBsd(os: OS)
  {
    os == FreeBSD || os == OpenBSD || os == DragonFlyBSD
  }

  /** The `TY` tags of the front end's type representation that this model needs:
      every basic type, and the derived types as a few representatives. */
  datatype Ty =
    | Tvoid | Tbool | Tchar | Twchar | Tdchar
    | Tint8 | Tuns8 | Tint16 | Tuns16 | Tint32 | Tuns32 | Tint64 | Tuns64 | Tint128 | Tuns128
    | Tfloat32 | Tfloat64 | Tfloat80
    | Timaginary32 | Timaginary64 | Timaginary80
    | Tcomplex32 | Tcomplex64 | Tcomplex80
    | Tpointer | Tarray | Tsarray | Taarray | Tstruct | Tclass | Tenum | Tdelegate | Tfunction | Tvector

  /** The tags carried by a basic (scalar) type. */
  predicate IsBasic(t: Ty)
  {
    match t
    case Tpointer | Tarray | Tsarray | Taarray | Tstruct | Tclass | Tenum | Tdelegate | Tfunction | Tvector => false
    case _ => true
  }

  /** An unsigned byte. */
  newtype uint8 = x: int | 0 <= x < 0x100

  /** The linkage kinds a declaration can have. */
  datatype Linkage = LinkDefault | LinkD | LinkC | LinkCpp | LinkWindows | LinkPascal | LinkObjC
}
