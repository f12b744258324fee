/** Which entry of the table a key names, told by its characters, and what the table holds at first. */
module KeyNames {
  import opened Common
  import opened PushTypes
  import opened Keys
  import Decimal
  import Words

  /** The key is the prefix and six decimal digits of the number. */
  ghost predicate Spells(k: string, prefix: string, n: nat) {
    exists digits: seq<nat> :: Reads(k, prefix, digits) && Decimal.Value(digits) == n
  }

  ghost predicate Reads(k: string, prefix: string, digits: seq<nat>) {
    && |digits| == 6 && Decimal.IsDigits(digits)
    && |k| == |prefix| + 6 && k[..|prefix|] == prefix
    && forall i :: 0 <= i < 6 ==> k[|prefix| + i] as int == 48 + digits[i]
  }

  /** The key of entry n of a domain. */
  ghost predicate EntryName(domain: Domain, n: nat, k: string) {
    match domain
    case Registry => Spells(k, "registry/service/instance/", n)
    case Catalog => Spells(k, "catalog/config/", n)
  }

  lemma NameSpells(domain: Domain, n: nat)
    requires n < LIMIT
    ensures EntryName(domain, n, Name(domain, n))
  {
    var digits, k := Padded(n), Name(domain, n);
    PaddedDigits(n);
    Decimal.LeadingZeros(WIDTH - |Decimal.Digits(n)|, Decimal.Digits(n));
    Decimal.ValueOfDigits(n);
    forall i | 0 <= i < 6
      ensures k[|Prefix(domain)| + i] as int == 48 + digits[i]
    {
      assert ('0' + digits[i] as char) as int == 48 + digits[i];
    }
    assert Reads(k, Prefix(domain), digits);
  }

  lemma {:induction false} ValueInjective(a: seq<nat>, b: seq<nat>)
    requires Decimal.IsDigits(a) && Decimal.IsDigits(b) && |a| == |b| && Decimal.Value(a) == Decimal.Value(b)
    ensures a == b
  {
    if a != [] {
      ValueInjective(a[..|a| - 1], b[..|b| - 1]);
      assert a == a[..|a| - 1] + [a[|a| - 1]] && b == b[..|b| - 1] + [b[|b| - 1]];
    }
  }

  /** A key names one entry, and an entry has one key. */
  lemma OneKeyPerEntry(d: Domain, n: nat, k: string, d': Domain, n': nat, k': string)
    requires EntryName(d, n, k) && EntryName(d', n', k')
    ensures k == k' <==> d == d' && n == n'
  {
    var p := if d == Registry then "registry/service/instance/" else "catalog/config/";
    var p' := if d' == Registry then "registry/service/instance/" else "catalog/config/";
    var a :| Reads(k, p, a) && Decimal.Value(a) == n;
    var b :| Reads(k', p', b) && Decimal.Value(b) == n';
    if k == k' {
      SameDigits(k, p, a, p', b);
    }
    if d == d' && n == n' {
      ValueInjective(a, b);
      SameKey(k, k', p, a);
    }
  }

  lemma SameKey(k: string, k': string, p: string, digits: seq<nat>)
    requires Reads(k, p, digits) && Reads(k', p, digits)
    ensures k == k'
  {
    forall x | 0 <= x < |k|
      ensures k[x] == k'[x]
    {
      if x < |p| {
        assert k[x] == k[..|p|][x] && k'[x] == k'[..|p|][x];
      } else {
        var i := x - |p|;
        assert k[|p| + i] as int == 48 + digits[i] == k'[|p| + i] as int;
      }
    }
  }

  lemma SameDigits(k: string, p: string, a: seq<nat>, p': string, b: seq<nat>)
    requires Reads(k, p, a) && Reads(k, p', b)
    ensures |p| == |p'| && p == p' && a == b
  {
    assert |p| == |p'|;
    assert forall i :: 0 <= i < 6 ==> a[i] == b[i];
  }

  // ---- updates ----

  /** How many entries of a domain take turns in receiving updates. */
  function Turns(config: Config, domain: Domain): nat {
    if config.hot > 0 then config.hot
    else if domain == Registry then config.registries
    else config.catalogs
  }

  lemma UpdateKeySpells(config: Config, domain: Domain, revision: nat)
    requires config.Checked()
    ensures Turns(config, domain) > 0
    ensures EntryName(domain, revision % Turns(config, domain), Key(config, domain, revision, true))
  {
    NameSpells(domain, revision % Turns(config, domain));
  }

  // ---- the table at first ----

  /** A payload of the given size that starts with the number, little-endian, and goes on with ones. */
  ghost predicate Numbered(data: Bytes, size: nat, n: nat) {
    && size >= 8 && |data| == size && Words.Decode(data[..8]) == n
    && forall b :: 8 <= b < size ==> data[b] == 49
  }

  lemma {:induction false} EncodedByte(n: nat, k: nat, b: nat)
    requires b < k
    ensures Words.Encode(n, k)[b] == ByteOf(n, b)
  {
    if b > 0 {
      EncodedByte(n / 256, k - 1, b - 1);
    }
  }

  lemma PayloadIsNumbered(size: nat, n: nat)
    requires size >= 8 && n < LIMIT
    ensures Numbered(Payload(size, n, 49), size, n)
  {
    var data := Payload(size, n, 49);
    forall b | 0 <= b < 8
      ensures data[..8][b] == Words.Encode(n, 8)[b]
    {
      EncodedByte(n, 8, b);
    }
    assert data[..8] == Words.Encode(n, 8);
    Words.WordRange();
    Words.DecodeEncode(n, 8);
  }

  /** The entries the table starts with: revision 0 and a numbered payload, 128 bytes long in the registry. */
  ghost predicate Fresh(config: Config, domain: Domain, n: nat, e: Entry) {
    e.0 == 0 && Numbered(e.1, if domain == Registry then 128 else config.bytes, n)
  }

  lemma {:induction false} SeedEntryIs(config: Config, domain: Domain, n: nat, i: nat)
    requires config.Checked() && i < n <= Count(config, domain)
    ensures Name(domain, i) in Seed(config, domain, n)
    ensures Fresh(config, domain, i, Seed(config, domain, n)[Name(domain, i)])
  {
    SeedStep(config, domain, n);
    if i < n - 1 {
      SeedEntryIs(config, domain, n - 1, i);
      NamesDiffer(domain, i, n - 1);
    } else {
      FreshIs(config, domain, i);
    }
  }

  lemma NamesDiffer(domain: Domain, i: nat, j: nat)
    requires i < LIMIT && j < LIMIT && i != j
    ensures Name(domain, i) != Name(domain, j)
  {
    if Name(domain, i) == Name(domain, j) {
      NameInjective(domain, i, domain, j);
    }
  }

  lemma FreshIs(config: Config, domain: Domain, n: nat)
    requires config.Checked() && n < LIMIT
    ensures Fresh(config, domain, n, SeedEntry(config, domain, n))
  {
    PayloadIsNumbered(if domain == Registry then 128 else config.bytes, n);
  }

  /** Entry n of a domain is in the first table exactly when n is below the domain's size, with a numbered payload. */
  lemma InitialEntries(config: Config, domain: Domain, n: nat, k: string)
    requires config.Checked() && EntryName(domain, n, k)
    ensures k in Initial(config) <==> n < if domain == Registry then config.registries else config.catalogs
    ensures k in Initial(config) ==> Fresh(config, domain, n, Initial(config)[k])
  {
    if n < Count(config, domain) {
      NameSpells(domain, n);
      OneKeyPerEntry(domain, n, k, domain, n, Name(domain, n));
      SeedEntryIs(config, domain, Count(config, domain), n);
      if domain == Registry {
        DomainsDisjoint(config, k);
      }
    } else if k in Initial(config) {
      var d := if k in Seed(config, Registry, config.registries) then Registry else Catalog;
      var i := SeedOnly(config, d, Count(config, d), k);
      NameSpells(d, i);
      OneKeyPerEntry(domain, n, k, d, i, k);
      assert false;
    }
  }

  /** Every key of the table is the name of an entry. */
  lemma InitialNames(config: Config, k: string) returns (domain: Domain, n: nat)
    requires config.Checked() && k in Initial(config)
    ensures EntryName(domain, n, k)
  {
    domain := if k in Seed(config, Registry, config.registries) then Registry else Catalog;
    n := SeedOnly(config, domain, Count(config, domain), k);
    NameSpells(domain, n);
  }
}
