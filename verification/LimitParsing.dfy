/** Reading a limit with an optional g, m or k suffix from the environment. */
module LimitParsing {
  import opened Common
  import opened Numerals

  datatype Unit = Bytes | Kilo | Mega | Giga

  function Factor(u: Unit): nat {
    match u
    case Bytes => 1
    case Kilo => 1024
    case Mega => 1048576
    case Giga => 1073741824
  }

  function UnitOf(last: char): Unit {
    if last == 'G' || last == 'g' then Giga
    else if last == 'M' || last == 'm' then Mega
    else if last == 'K' || last == 'k' then Kilo
    else Bytes
  }

  /** The multiplication in 64 bits and the test by dividing back. */
  function ScaledOrZero(res: nat, scalar: nat): nat
    requires scalar > 0
  {
    var scaled := res * scalar % TWO_64;
    if scaled == 0 then 0 else if scaled / scalar != res then 0 else scaled
  }

  function GetLimitFromEnv(env: Option<string>): nat {
    if env.None? || env.value == [] then 0
    else ScaledOrZero(Strtoul(env.value), Factor(UnitOf(env.value[|env.value| - 1])))
  }

  /** Dividing back detects every overflow and nothing else. */
  lemma OverflowExact(res: nat, scalar: nat)
    requires res < TWO_64
    requires scalar == 1 || scalar == 1024 || scalar == 1024 * 1024 || scalar == 1024 * 1024 * 1024
    ensures ScaledOrZero(res, scalar) == if res * scalar < TWO_64 then res * scalar else 0
  {
    if scalar == 1 {
    } else if scalar == 1024 {
      assert res * scalar % TWO_64 == res * 1024 % TWO_64;
    } else if scalar == 1024 * 1024 {
      assert res * scalar % TWO_64 == res * 1048576 % TWO_64;
    } else {
      assert res * scalar % TWO_64 == res * 1073741824 % TWO_64;
    }
  }

  /** No variable, or an empty one, is no limit. */
  lemma UnsetIsNoLimit()
    ensures GetLimitFromEnv(None) == GetLimitFromEnv(Some("")) == 0
  {}

  /** The bytes that a suffix stands for. */
  ghost predicate StandsFor(suffix: string, bytes: nat) {
    || (suffix == "" && bytes == 1)
    || ((suffix == "k" || suffix == "K") && bytes == 1024)
    || ((suffix == "m" || suffix == "M") && bytes == 1048576)
    || ((suffix == "g" || suffix == "G") && bytes == 1073741824)
  }

  /** Whatever the text, its last character alone decides the unit, and a number that does not
      fit is no limit. */
  lemma LastDecides(s: string, scale: nat)
    requires s != []
    requires StandsFor([s[|s| - 1]], scale) || (scale == 1 && s[|s| - 1] !in "kKmMgG")
    ensures GetLimitFromEnv(Some(s)) == if Strtoul(s) * scale < TWO_64 then Strtoul(s) * scale else 0
  {
    OverflowExact(Strtoul(s), scale);
  }

  function Limit(n: nat, suffix: string): nat {
    GetLimitFromEnv(Some(Print(n) + suffix))
  }

  /** A printed amount in some unit, in either case, is read as its bytes if they fit into 64
      bits; too large a number with a suffix is read as no limit, without one as the largest
      64-bit number. */
  lemma LimitOfPrint(n: nat, suffix: string, scale: nat)
    requires StandsFor(suffix, scale)
    ensures Limit(n, suffix) ==
            if n * scale < TWO_64 then n * scale else if suffix == "" then TWO_64 - 1 else 0
  {
    var s := Print(n) + suffix;
    StrtoulOfPrint(n, suffix);
    PrintDecimal(n);
    var last := s[|s| - 1];
    assert suffix != "" ==> last == suffix[0];
    assert Factor(UnitOf(last)) == scale;
    OverflowExact(Strtoul(s), scale);
  }

  lemma LimitOf(n: nat, suffix: string, scale: nat, bytes: nat)
    requires StandsFor(suffix, scale) && bytes == n * scale
    ensures Limit(n, suffix) == if bytes < TWO_64 then bytes else if suffix == "" then TWO_64 - 1 else 0
  {
    LimitOfPrint(n, suffix, scale);
  }

  /** The same amount written with each of the four units is read alike exactly when it fits. */
  lemma UnitsAgree(n: nat)
    ensures Limit(n, "g") == Limit(1024 * n, "m") == Limit(1048576 * n, "k")
    ensures Limit(n, "G") == Limit(1024 * n, "M") == Limit(1048576 * n, "K") == Limit(n, "g")
    ensures Limit(n, "g") == Limit(1073741824 * n, "") <==> n * 1073741824 < TWO_64
  {
    var bytes := n * 1073741824;
    assert 1024 * n * 1048576 == 1048576 * n * 1024 == 1073741824 * n * 1 == bytes;
    LimitOf(n, "g", 1073741824, bytes);
    LimitOf(n, "G", 1073741824, bytes);
    LimitOf(1024 * n, "m", 1048576, bytes);
    LimitOf(1024 * n, "M", 1048576, bytes);
    LimitOf(1048576 * n, "k", 1024, bytes);
    LimitOf(1048576 * n, "K", 1024, bytes);
    LimitOf(1073741824 * n, "", 1, bytes);
  }
}
