/** The on-demand queries of `Target`: alignment of basic types, the size of the
    OS critical section, the `va_list` representation, vector-type admissibility,
    the default system linkage and the linkage-dependent symbol prefix. */
module TargetQueries {
  import opened Platform
  import opened TargetInit

  /** The 80-bit extended-precision real, imaginary and complex types. */
  predicate IsReal80(t: Ty)
  {
    t == Tfloat80 || t == Timaginary80 || t == Tcomplex80
  }

  /** The types built from 8-byte scalars, which the 32-bit POSIX ABIs align to 4. */
  predicate IsEightByteScalar(t: Ty)
  {
    t == Tint64 || t == Tuns64 || t == Tfloat64 || t == Timaginary64 || t == Tcomplex64
  }

  /** `Target::alignsize`: the memory alignment of a basic type. `naturalSize` is
      the size the type system reports for `ty`; `facts` are the initialised
      static fields. The result is an alignment that the ABI can honour: a power
      of two whenever the natural size is one. */
  function AlignSize(cfg: Params, facts: Facts, ty: Ty, naturalSize: nat): (r: nat)
    requires IsBasic(ty)
    ensures IsReal80(ty) ==> r == facts.realAlignSize
    ensures ty == Tcomplex32 && IsPosix(cfg.os) ==> r == 4
    ensures IsEightByteScalar(ty) && IsPosix(cfg.os) ==> r == (if cfg.is64bit then 8 else 4)
    ensures !IsReal80(ty) && !(IsPosix(cfg.os) && (ty == Tcomplex32 || IsEightByteScalar(ty)))
            ==> r == naturalSize
    ensures Consistent(facts) && IsPow2(naturalSize) ==> IsPow2(r)
  {
    match ty
    case Tfloat80 | Timaginary80 | Tcomplex80 =>
      facts.realAlignSize
    case Tcomplex32 =>
      if IsPosix(cfg.os) then 4 else naturalSize
    case Tint64 | Tuns64 | Tfloat64 | Timaginary64 | Tcomplex64 =>
      if IsPosix(cfg.os) then (if cfg.is64bit then 8 else 4) else naturalSize
    case _ =>
      naturalSize
  }

  /** `Target::critsecsize`: the byte size of the OS mutex (`CRITICAL_SECTION` on
      Windows, `pthread_mutex_t` elsewhere) for the target, not the host. On the
      BSDs the mutex is a single pointer, so its size is the target pointer size. */
  function CritSecSize(cfg: Params): (r: nat)
    requires IsSupported(cfg.os)
    ensures cfg.os == Windows ==> r == (if cfg.isLP64 then 40 else 24)
    ensures cfg.os == Linux ==> r == (if cfg.isLP64 then 40 else if cfg.is64bit then 32 else 24)
    ensures IsBsd(cfg.os) ==> r == Resolved(cfg, false).ptrSize
    ensures cfg.os == OSX ==> r == (if cfg.isLP64 then 64 else 44)
    ensures cfg.os == Solaris ==> r == 24
  {
    if cfg.os == Windows then
      if cfg.isLP64 then 40 else 24
    else if cfg.os == Linux then
      if cfg.is64bit then
        (if cfg.isLP64 then 40 else 32)
      else
        (if cfg.isLP64 then 40 else 24)
    else if cfg.os == FreeBSD then
      if cfg.isLP64 then 8 else 4
    else if cfg.os == OpenBSD then
      if cfg.isLP64 then 8 else 4
    else if cfg.os == DragonFlyBSD then
      if cfg.isLP64 then 8 else 4
    else if cfg.os == OSX then
      if cfg.isLP64 then 64 else 44
    else
      24
  }

  /** The architecture flag matters to the mutex size on Linux only. */
  lemma CritSecSizeIgnores64bitOffLinux(cfg: Params)
    requires IsSupported(cfg.os) && cfg.os != Linux
    ensures CritSecSize(cfg) == CritSecSize(cfg.(is64bit := !cfg.is64bit))
  {
  }

  /** The two types `va_listType` can return. */
  datatype VaList =
    | CharPtr        // `char*`
    | VaListTagPtr   // `__va_list_tag*`: the x86-64 System V cursor, passed by reference

  /** `Target::va_listType`: the type used to pass a `va_list` argument. */
  function VaListType(cfg: Params): (r: VaList)
    requires IsSupported(cfg.os)
    ensures r == VaListTagPtr <==> cfg.os != Windows && cfg.is64bit
  {
    if cfg.os == Windows then
      CharPtr
    else if IsPosix(cfg.os) then
      if cfg.is64bit then VaListTagPtr else CharPtr
    else
      assert false; CharPtr
  }

  /** The element types a vector type may have. */
  predicate IsVectorElement(t: Ty)
  {
    match t
    case Tvoid | Tint8 | Tuns8 | Tint16 | Tuns16 | Tint32 | Tuns32 | Tfloat32 | Tint64 | Tuns64 | Tfloat64 => true
    case _ => false
  }

  /** Vector types exist only on 64-bit targets and on OSX. */
  predicate SupportsVectors(cfg: Params)
  {
    cfg.is64bit || cfg.os == OSX
  }

  /** `Target::checkVectorType`: the verdict on a vector of `sz` bytes of `ty`:
      0 admissible, 1 no vector support on the platform, 2 wrong size, 3 wrong
      element type. The first failing check decides, in that order. */
  function CheckVectorType(cfg: Params, sz: int, ty: Ty): (r: int)
    ensures 0 <= r <= 3
    ensures r == 1 <==> !SupportsVectors(cfg)
    ensures r == 2 <==> SupportsVectors(cfg) && sz != 16 && sz != 32
    ensures r == 3 <==> SupportsVectors(cfg) && (sz == 16 || sz == 32) && !IsVectorElement(ty)
    ensures r == 0 <==> SupportsVectors(cfg) && (sz == 16 || sz == 32) && IsVectorElement(ty)
  {
    if !cfg.is64bit && cfg.os != OSX then
      1
    else if sz != 16 && sz != 32 then
      2
    else if !IsVectorElement(ty) then
      3
    else
      0
  }

  /** `Target::systemLinkage`: the default linkage of `extern (System)`. It is
      never C++ linkage, so `PrefixName` never changes a system-linkage name. */
  function SystemLinkage(cfg: Params): (r: Linkage)
    ensures r == LinkWindows <==> cfg.os == Windows
    ensures r == LinkWindows || r == LinkC
    ensures !PrefixApplies(cfg, r)
  {
    if cfg.os == Windows then LinkWindows else LinkC
  }

  /** A byte buffer that symbol names are written into. */
  class OutBuffer {
    var data: seq<uint8>

    constructor (init: seq<uint8>)
      ensures data == init
    {
      data := init;
    }

    method PrependByte(b: uint8)
      modifies this
      ensures data == [b] + old(data)
    {
      data := [b] + data;
    }
  }

  /** The byte `'_'`. */
  const Underscore: uint8 := 0x5F

  /** C++ symbols on OSX carry a leading underscore. */
  predicate PrefixApplies(cfg: Params, linkage: Linkage)
  {
    linkage == LinkCpp && cfg.os == OSX
  }

  /** `Target::prefixName`: adds the target's prefix for `linkage` to the name in `buf`. */
  method PrefixName(cfg: Params, buf: OutBuffer, linkage: Linkage)
    modifies buf
    ensures PrefixApplies(cfg, linkage) ==> buf.data == [Underscore] + old(buf.data)
    ensures !PrefixApplies(cfg, linkage) ==> buf.data == old(buf.data)
  {
    match linkage
    case LinkCpp =>
      if cfg.os == OSX {
        buf.PrependByte(Underscore);
      }
    case _ =>
  }
}
