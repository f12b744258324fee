/** Key names of the hub's table and the table the hub starts with. */
module Keys {
  import opened Common
  import opened PushTypes
  import Decimal

  const WIDTH := 6
  const LIMIT := 1000000

  /** Six digits, padded with zeros on the left. */
  function Padded(n: nat): (s: seq<nat>)
    requires n < LIMIT
    ensures |s| == WIDTH
  {
    Fits(n);
    seq(WIDTH - |Decimal.Digits(n)|, _ => 0) + Decimal.Digits(n)
  }

  lemma Fits(n: nat)
    requires n < LIMIT
    ensures |Decimal.Digits(n)| <= WIDTH
  {
    assert LIMIT == 10 * Decimal.Pow10(5);
    assert Decimal.Pow10(5) == 10 * Decimal.Pow10(4);
    assert Decimal.Pow10(3) == 1000;
    Decimal.DigitsFit(n, WIDTH);
  }

  lemma PaddedInjective(a: nat, b: nat)
    requires a < LIMIT && b < LIMIT && Padded(a) == Padded(b)
    ensures a == b
  {
    Decimal.LeadingZeros(WIDTH - |Decimal.Digits(a)|, Decimal.Digits(a));
    Decimal.LeadingZeros(WIDTH - |Decimal.Digits(b)|, Decimal.Digits(b));
    Decimal.ValueOfDigits(a);
    Decimal.ValueOfDigits(b);
  }

  function Prefix(domain: Domain): string {
    if domain == Registry then "registry/service/instance/" else "catalog/config/"
  }

  /** The key of an index that is already in range. */
  function Name(domain: Domain, index: nat): string
    requires index < LIMIT
  {
    var digits := Padded(index);
    Prefix(domain) +
    seq(|digits|, i requires 0 <= i < |digits| => if digits[i] < 10 then '0' + digits[i] as char else '?')
  }

  lemma PaddedDigits(n: nat)
    requires n < LIMIT
    ensures Decimal.IsDigits(Padded(n))
  {
    Decimal.ValueOfDigits(n);
  }

  /** Different domains or indices have different keys. */
  lemma NameInjective(d: Domain, i: nat, d': Domain, i': nat)
    requires i < LIMIT && i' < LIMIT && Name(d, i) == Name(d', i')
    ensures d == d' && i == i'
  {
    assert Name(d, i)[0] == Prefix(d)[0] && Name(d', i')[0] == Prefix(d')[0];
    assert d == d';
    var p, p' := Padded(i), Padded(i');
    PaddedDigits(i);
    PaddedDigits(i');
    var n := |Prefix(d)|;
    forall k | 0 <= k < WIDTH
      ensures p[k] == p'[k]
    {
      assert Name(d, i)[n + k] == '0' + p[k] as char;
      assert Name(d', i')[n + k] == '0' + p'[k] as char;
      assert ('0' + p[k] as char) as int == 48 + p[k];
      assert ('0' + p'[k] as char) as int == 48 + p'[k];
    }
    assert p == p';
    PaddedInjective(i, i');
  }

  function Count(config: Config, domain: Domain): nat {
    if domain == Registry then config.registries else config.catalogs
  }

  /** The key of an index; updates use only the hot keys when these are limited. */
  function Key(config: Config, domain: Domain, index: nat, update: bool): string
    requires config.Checked()
  {
    Name(domain, index % (if update && config.hot > 0 then config.hot else Count(config, domain)))
  }

  /** Byte number b of i, little-endian. */
  function ByteOf(i: nat, b: nat): Byte {
    if b == 0 then (i % 256) as Byte else ByteOf(i / 256, b - 1)
  }

  function Payload(size: nat, i: nat, filler: Byte): Bytes {
    seq(size, b => if 0 <= b < 8 then ByteOf(i, b) else filler)
  }

  /** The first n entries of a domain. */
  function Seed(config: Config, domain: Domain, n: nat): Table
    requires config.Checked() && n <= Count(config, domain)
  {
    if n == 0 then map[]
    else
      Seed(config, domain, n - 1)[Key(config, domain, n - 1, false) := SeedEntry(config, domain, n - 1)]
  }

  function Initial(config: Config): Table
    requires config.Checked()
  {
    Seed(config, Registry, config.registries) + Seed(config, Catalog, config.catalogs)
  }

  function SeedEntry(config: Config, domain: Domain, i: nat): Entry {
    (0, Payload(if domain == Registry then 128 else config.bytes, i, 49))
  }

  lemma SmallModulus(i: nat, m: nat)
    requires i < m
    ensures i % m == i
  {
  }

  lemma SeedStep(config: Config, domain: Domain, n: nat)
    requires config.Checked() && 0 < n <= Count(config, domain)
    ensures Seed(config, domain, n) ==
            Seed(config, domain, n - 1)[Name(domain, n - 1) := SeedEntry(config, domain, n - 1)]
  {
    SmallModulus(n - 1, Count(config, domain));
  }

  lemma {:induction false} SeedHas(config: Config, domain: Domain, n: nat, i: nat)
    requires config.Checked() && i < n <= Count(config, domain)
    ensures Name(domain, i) in Seed(config, domain, n)
  {
    SeedStep(config, domain, n);
    if i < n - 1 {
      SeedHas(config, domain, n - 1, i);
    }
  }

  lemma {:induction false} SeedOnly(config: Config, domain: Domain, n: nat, k: string) returns (i: nat)
    requires config.Checked() && n <= Count(config, domain) && k in Seed(config, domain, n)
    ensures i < n && k == Name(domain, i)
  {
    SeedStep(config, domain, n);
    if k in Seed(config, domain, n - 1) {
      i := SeedOnly(config, domain, n - 1, k);
    } else {
      i := n - 1;
    }
  }

  lemma {:induction false} SeedSize(config: Config, domain: Domain, n: nat)
    requires config.Checked() && n <= Count(config, domain)
    ensures |Seed(config, domain, n)| == n
  {
    if n > 0 {
      SeedStep(config, domain, n);
      SeedSize(config, domain, n - 1);
      NextIsNew(config, domain, n - 1);
      AddedSize(Seed(config, domain, n - 1), Name(domain, n - 1), SeedEntry(config, domain, n - 1));
    }
  }

  lemma AddedSize(t: Table, key: string, e: Entry)
    requires key !in t
    ensures |t[key := e]| == |t| + 1
  {
    assert t[key := e].Keys == t.Keys + {key};
  }

  lemma NextIsNew(config: Config, domain: Domain, n: nat)
    requires config.Checked() && n < Count(config, domain)
    ensures Name(domain, n) !in Seed(config, domain, n)
  {
    if Name(domain, n) in Seed(config, domain, n) {
      var i := SeedOnly(config, domain, n, Name(domain, n));
      NameInjective(domain, n, domain, i);
      assert false;
    }
  }

  lemma DomainsDisjoint(config: Config, k: string)
    requires config.Checked()
    requires k in Seed(config, Registry, config.registries)
    ensures k !in Seed(config, Catalog, config.catalogs)
  {
    if k in Seed(config, Catalog, config.catalogs) {
      var i := SeedOnly(config, Registry, config.registries, k);
      var j := SeedOnly(config, Catalog, config.catalogs, k);
      NameInjective(Registry, i, Catalog, j);
      assert false;
    }
  }

  /** The hub starts with one entry per configured key, all different. */
  lemma InitialSize(config: Config)
    requires config.Checked()
    ensures |Initial(config)| == config.registries + config.catalogs
  {
    var a, b := Seed(config, Registry, config.registries), Seed(config, Catalog, config.catalogs);
    SeedSize(config, Registry, config.registries);
    SeedSize(config, Catalog, config.catalogs);
    forall k | k in a
      ensures k !in b
    {
      DomainsDisjoint(config, k);
    }
    assert a.Keys !! b.Keys;
    assert Initial(config).Keys == a.Keys + b.Keys;
    assert |Initial(config).Keys| == |a.Keys| + |b.Keys|;
  }

  /** Every update of either domain, whatever its number, names an existing entry. */
  lemma KeyExists(config: Config, domain: Domain, index: nat)
    requires config.Checked()
    ensures Key(config, domain, index, true) in Initial(config)
  {
    SeedHas(config, domain, Count(config, domain),
            index % (if config.hot > 0 then config.hot else Count(config, domain)));
  }
}
