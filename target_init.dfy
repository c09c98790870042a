/** The target's layout facts (the static fields of `Target`) and `Target::_init`,
    which computes them once per compilation from the platform configuration. */
module TargetInit {
  import opened Platform

  /** The values of the static fields of `Target`, taken together. */
  datatype Facts = Facts(
    ptrSize: nat,
    classInfoSize: nat,
    maxStaticDataSize: nat,
    realSize: nat,
    realPad: nat,
    realAlignSize: nat,
    cLongSize: nat,
    cLongDoubleSize: nat,
    reverseCppOverloads: bool,
    cppExceptions: bool)

  /** The largest positive 32-bit signed integer: the deliberate cap on static data. */
  const IntMax: nat := 0x7FFF_FFFF

  /** The 16 MiB limit of the Windows 32-bit linker. */
  const OptlinkMax: nat := 0x100_0000

  predicate IsPow2(n: nat)
  {
    n == 1 || (n > 1 && n % 2 == 0 && IsPow2(n / 2))
  }

  /** What the facts promise to every later phase: a pointer is 4 or 8 bytes, the
      runtime class descriptor is 19 pointer-sized words, static data stays
      addressable with 32-bit offsets, the x87 extended real is its 10 value
      bytes plus padding, its alignment is a power of two dividing its size,
      a C `long` is 4 or 8 bytes and a C `long double` is the real or 8 bytes. */
  predicate Consistent(f: Facts)
  {
    && (f.ptrSize == 4 || f.ptrSize == 8)
    && f.classInfoSize == 19 * f.ptrSize
    && 0 < f.maxStaticDataSize <= IntMax
    && f.realSize == 10 + f.realPad
    && IsPow2(f.realAlignSize)
    && f.realSize % f.realAlignSize == 0
    && (f.cLongSize == 4 || f.cLongSize == 8)
    && (f.cLongDoubleSize == f.realSize || f.cLongDoubleSize == 8)
  }

  /** The facts `_init` settles on, stated field by field for a supported OS.
      `priorReverse` is the value `reverseCppOverloads` held before: `_init`
      assigns that field on Windows only. */
  function Resolved(cfg: Params, priorReverse: bool): (f: Facts)
    requires IsSupported(cfg.os)
    ensures Consistent(f)
  {
    var os := cfg.os;
    var wideReal := os == OSX || (cfg.is64bit && (os == Linux || os == FreeBSD || os == Solaris));
    var realSize := if os == Windows then 10 else if wideReal then 16 else 12;
    Facts(
      ptrSize := if cfg.isLP64 then 8 else 4,
      classInfoSize := if cfg.isLP64 then 152 else 76,
      maxStaticDataSize := if os == Windows && !cfg.isLP64 then OptlinkMax else IntMax,
      realSize := realSize,
      realPad := realSize - 10,
      realAlignSize := if os == Windows then 2 else if wideReal then 16 else 4,
      cLongSize := if cfg.is64bit && os != Windows && os != OpenBSD && os != DragonFlyBSD then 8 else 4,
      cLongDoubleSize := if cfg.is64bit && os == Windows then 8 else realSize,
      reverseCppOverloads := if os == Windows then !cfg.is64bit else priorReverse,
      cppExceptions := os == Linux || os == FreeBSD || os == OSX)
  }

  /** The static fields of `Target`. */
  class Target {
    var ptrSize: nat
    var realSize: nat
    var realPad: nat
    var realAlignSize: nat
    var reverseCppOverloads: bool
    var cppExceptions: bool
    var cLongSize: nat
    var cLongDoubleSize: nat
    var classInfoSize: nat
    var maxStaticDataSize: nat

    function Snapshot(): Facts
      reads this
    {
      Facts(ptrSize, classInfoSize, maxStaticDataSize, realSize, realPad, realAlignSize,
            cLongSize, cLongDoubleSize, reverseCppOverloads, cppExceptions)
    }

    /** Static storage starts zeroed. */
    constructor ()
      ensures Snapshot() == Facts(0, 0, 0, 0, 0, 0, 0, 0, false, false)
    {
      ptrSize, realSize, realPad, realAlignSize := 0, 0, 0, 0;
      reverseCppOverloads, cppExceptions := false, false;
      cLongSize, cLongDoubleSize, classInfoSize, maxStaticDataSize := 0, 0, 0, 0;
    }

    /** `Target::_init`: 32-bit defaults, then the LP64 adjustment, the per-OS
        base layout, the 64-bit upgrade and the derived fields, in that order,
        later steps overwriting earlier ones. */
    method Init(cfg: Params)
      requires IsSupported(cfg.os)
      modifies this
      ensures Snapshot() == Resolved(cfg, old(reverseCppOverloads))
    {
      ptrSize := 4;
      classInfoSize := 0x4C;
      maxStaticDataSize := IntMax;

      if cfg.isLP64 {
        ptrSize := 8;
        classInfoSize := 0x98;
      }

      if IsElfPosix(cfg.os) {
        realSize := 12;
        realPad := 2;
        realAlignSize := 4;
        cLongSize := 4;
      } else if cfg.os == OSX {
        realSize := 16;
        realPad := 6;
        realAlignSize := 16;
        cLongSize := 4;
      } else if cfg.os == Windows {
        realSize := 10;
        realPad := 0;
        realAlignSize := 2;
        reverseCppOverloads := !cfg.is64bit;
        cLongSize := 4;
        if ptrSize == 4 {
          maxStaticDataSize := OptlinkMax;
        }
      } else {
        assert false;
      }

      if cfg.is64bit {
        if cfg.os == Linux || cfg.os == FreeBSD || cfg.os == Solaris {
          realSize := 16;
          realPad := 6;
          realAlignSize := 16;
          cLongSize := 8;
        } else if cfg.os == OSX {
          cLongSize := 8;
        }
      }

      cLongDoubleSize := realSize;
      if cfg.is64bit && cfg.os == Windows {
        cLongDoubleSize := 8;
      }

      cppExceptions := cfg.os == Linux || cfg.os == FreeBSD || cfg.os == OSX;
    }
  }
}
