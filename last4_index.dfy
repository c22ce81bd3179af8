/** The last-4-digits index: what a build pass produces from an enumeration of
    customers. Both servers build it with the same nested loops; the current
    controller (`dedup` = true) collapses a repeated phone and never lists the same
    customer id twice in one bucket, the legacy server (`dedup` = false) appends the
    customer once per qualifying phone field. */
module Last4Index {
  import opened Common
  import opened Text
  import opened Customers

  /** last4 => customers, in enumeration order. */
  type Index = map<string, seq<Customer>>

  /** `index.get(k) || []`. */
  function Bucket(idx: Index, k: string): seq<Customer> {
    if k in idx then idx[k] else []
  }

  /** One step of the inner loop for a phone with key `key`: create the bucket if
      it is missing, then append `c`, unless `dedup` holds and a customer with the
      same id is already listed there. */
  function Push(idx: Index, key: string, c: Customer, dedup: bool): Index {
    var list := Bucket(idx, key);
    if dedup && HasId(list, c.id) then idx[key := list] else idx[key := list + [c]]
  }

  /** The body of the inner loop for one phone: a phone with fewer than four
      digits is skipped. */
  function IndexPhone(idx: Index, c: Customer, phone: string, dedup: bool): Index {
    match PhoneKey(phone)
    case None => idx
    case Some(k) => Push(idx, k, c, dedup)
  }

  /** The inner loop over the phones of one customer. */
  function IndexPhones(idx: Index, c: Customer, phones: seq<string>, dedup: bool): Index
    decreases |phones|
  {
    if phones == [] then idx
    else IndexPhones(IndexPhone(idx, c, phones[0], dedup), c, phones[1..], dedup)
  }

  /** The phones the loop walks: deduplicated by the controller, as collected by the
      legacy server. */
  function PhonesToIndex(c: Customer, dedup: bool): seq<string> {
    if dedup then UniquePhones(c) else Phones(c)
  }

  function IndexCustomer(idx: Index, c: Customer, dedup: bool): Index {
    IndexPhones(idx, c, PhonesToIndex(c, dedup), dedup)
  }

  /** The index a complete build pass over `cs` produces, customer by customer. */
  function BuildIndex(cs: seq<Customer>, dedup: bool): Index {
    if cs == [] then map[] else IndexCustomer(BuildIndex(cs[..|cs| - 1], dedup), cs[|cs| - 1], dedup)
  }

  /** The build loops over an enumeration: customer by customer, and for each
      customer phone by phone, the customer is bucketed under the phone's last
      four digits. The map is local: the caller installs it once it is complete. */
  method Build(all: seq<Customer>, dedup: bool) returns (idx: Index)
    ensures idx == BuildIndex(all, dedup)
  {
    idx := map[];
    for i := 0 to |all|
      invariant idx == BuildIndex(all[..i], dedup)
    {
      assert all[..i + 1][..i] == all[..i];
      idx := AddCustomer(idx, all[i], dedup);
    }
    assert all[..|all|] == all;
  }

  /** The inner loop for one customer. */
  method AddCustomer(start: Index, c: Customer, dedup: bool) returns (idx: Index)
    ensures idx == IndexCustomer(start, c, dedup)
  {
    var phones := PhonesToIndex(c, dedup);
    idx := start;
    for j := 0 to |phones|
      invariant IndexPhones(idx, c, phones[j..], dedup) == IndexCustomer(start, c, dedup)
    {
      assert phones[j..][1..] == phones[j + 1..];
      idx := AddPhone(idx, c, phones[j], dedup);
    }
    assert phones[|phones|..] == [];
  }

  /** One phone: strip the non-digits, and when at least four digits remain,
      create the bucket of the last four if it is missing and append the customer
      (with dedup, only if its id is not listed there yet). */
  method AddPhone(start: Index, c: Customer, phone: string, dedup: bool) returns (idx: Index)
    ensures idx == IndexPhone(start, c, phone, dedup)
  {
    idx := start;
    var digits := Digits(phone);
    if |digits| >= 4 {
      var last4 := digits[|digits| - 4..];
      if last4 !in idx {
        idx := idx[last4 := []];
      }
      var list := idx[last4];
      assert list == Bucket(start, last4);
      if !dedup || !HasId(list, c.id) {
        idx := idx[last4 := list + [c]];
      } else {
        assert idx == start[last4 := list];
      }
    }
  }

  // ---------------------------------------------------------------------------
  // The bucket of one suffix, stated independently of the map-building loop.

  /** How many of `phones` have key `k`. */
  function KeyCount(phones: seq<string>, k: string): nat {
    if phones == [] then 0
    else (if PhoneKey(phones[0]) == Some(k) then 1 else 0) + KeyCount(phones[1..], k)
  }

  function Repeat(c: Customer, n: nat): (r: seq<Customer>)
    ensures |r| == n
    ensures forall i :: 0 <= i < n ==> r[i] == c
  {
    if n == 0 then [] else [c] + Repeat(c, n - 1)
  }

  /** The bucket suffix `k` should hold after indexing `cs`: with `dedup`, every
      customer having a phone with key `k` whose id is not listed yet; without,
      every customer once per phone field with key `k`. */
  function ExpectedBucket(cs: seq<Customer>, k: string, dedup: bool): seq<Customer> {
    if cs == [] then []
    else
      var b := ExpectedBucket(cs[..|cs| - 1], k, dedup);
      var c := cs[|cs| - 1];
      if dedup then (if HasKey(c, k) && !HasId(b, c.id) then b + [c] else b)
      else b + Repeat(c, KeyCount(Phones(c), k))
  }

  /** A well-formed index: every key is four digits, no bucket is empty, and every
      customer listed under a key has a phone ending with that key. */
  ghost predicate Sound(idx: Index) {
    forall k :: k in idx ==>
      IsFourDigits(k) && idx[k] != [] && forall c :: c in idx[k] ==> MatchesLast4(c, k)
  }

  // ---------------------------------------------------------------------------
  // Lemmas.

  lemma {:induction false} KeyCountPositive(phones: seq<string>, k: string)
    ensures KeyCount(phones, k) > 0 <==> exists p :: p in phones && PhoneKey(p) == Some(k)
  {
    if phones != [] {
      KeyCountPositive(phones[1..], k);
      assert forall p :: p in phones <==> p == phones[0] || p in phones[1..];
    }
  }

  /** The phones walked for a customer select exactly the keys it has. */
  lemma PhonesToIndexKeys(c: Customer, k: string, dedup: bool)
    ensures KeyCount(PhonesToIndex(c, dedup), k) > 0 <==> HasKey(c, k)
  {
    KeyCountPositive(PhonesToIndex(c, dedup), k);
  }

  lemma {:induction false} RepeatAppend(c: Customer, m: nat, n: nat)
    ensures Repeat(c, m) + Repeat(c, n) == Repeat(c, m + n)
  {
  }

  lemma HasIdAppended(b: seq<Customer>, c: Customer)
    ensures HasId(b + [c], c.id)
  {
    assert (b + [c])[|b|].id == c.id;
  }

  /** What the inner loop over one customer's phones does to the bucket of `k`. */
  lemma {:induction false} IndexPhonesBucket(idx: Index, c: Customer, phones: seq<string>, dedup: bool, k: string)
    ensures k in IndexPhones(idx, c, phones, dedup) <==> k in idx || KeyCount(phones, k) > 0
    ensures Bucket(IndexPhones(idx, c, phones, dedup), k) ==
      if dedup then
        (if KeyCount(phones, k) > 0 && !HasId(Bucket(idx, k), c.id) then Bucket(idx, k) + [c] else Bucket(idx, k))
      else Bucket(idx, k) + Repeat(c, KeyCount(phones, k))
    decreases |phones|
  {
    if phones != [] {
      var next := match PhoneKey(phones[0])
        case None => idx
        case Some(key) => Push(idx, key, c, dedup);
      IndexPhonesBucket(next, c, phones[1..], dedup, k);
      var b := Bucket(idx, k);
      if PhoneKey(phones[0]) == Some(k) {
        if dedup && !HasId(b, c.id) {
          HasIdAppended(b, c);
        }
        if !dedup {
          RepeatAppend(c, 1, KeyCount(phones[1..], k));
        }
      } else {
        assert Bucket(next, k) == b;
      }
    }
  }

  /** The map built by the loops holds, for every suffix, exactly the expected
      bucket, and holds a key exactly when that bucket is non-empty. */
  lemma {:induction false} BuildIndexBuckets(cs: seq<Customer>, dedup: bool, k: string)
    ensures Bucket(BuildIndex(cs, dedup), k) == ExpectedBucket(cs, k, dedup)
    ensures k in BuildIndex(cs, dedup) <==> ExpectedBucket(cs, k, dedup) != []
  {
    if cs != [] {
      var c := cs[|cs| - 1];
      BuildIndexBuckets(cs[..|cs| - 1], dedup, k);
      IndexPhonesBucket(BuildIndex(cs[..|cs| - 1], dedup), c, PhonesToIndex(c, dedup), dedup, k);
      PhonesToIndexKeys(c, k, dedup);
      if !dedup {
        PhonesToIndexKeys(c, k, true);
        KeyCountPositive(Phones(c), k);
        KeyCountPositive(UniquePhones(c), k);
      }
    }
  }

  /** Everything listed under `k` comes from the enumeration and has a phone whose
      key is `k`. */
  lemma {:induction false} ExpectedBucketSound(cs: seq<Customer>, k: string, dedup: bool)
    ensures forall c :: c in ExpectedBucket(cs, k, dedup) ==> c in cs && HasKey(c, k)
  {
    if cs != [] {
      var c := cs[|cs| - 1];
      ExpectedBucketSound(cs[..|cs| - 1], k, dedup);
      if !dedup && KeyCount(Phones(c), k) > 0 {
        KeyCountPositive(Phones(c), k);
      }
    }
  }

  /** Every enumerated customer with a phone keyed `k` is represented in the bucket
      of `k`: by itself without dedup, by a customer with its id with dedup. */
  lemma {:induction false} ExpectedBucketComplete(cs: seq<Customer>, k: string, dedup: bool, c: Customer)
    requires c in cs && HasKey(c, k)
    ensures HasId(ExpectedBucket(cs, k, dedup), c.id)
    ensures !dedup ==> c in ExpectedBucket(cs, k, dedup)
  {
    var init := cs[..|cs| - 1];
    var last := cs[|cs| - 1];
    if c == last {
      ExpectedBucketCompleteLast(cs, k, dedup);
    } else {
      assert c in init by {
        assert cs == init + [last];
      }
      ExpectedBucketComplete(init, k, dedup, c);
      ExpectedBucketPrefix(cs, k, dedup);
      PrefixKeeps(ExpectedBucket(init, k, dedup), ExpectedBucket(cs, k, dedup), c);
    }
  }

  /** A list that extends `b` keeps what `b` lists. */
  lemma PrefixKeeps(b: seq<Customer>, full: seq<Customer>, c: Customer)
    requires |b| <= |full| && full[..|b|] == b
    ensures HasId(b, c.id) ==> HasId(full, c.id)
    ensures c in b ==> c in full
  {
    if HasId(b, c.id) {
      var i :| 0 <= i < |b| && b[i].id == c.id;
      assert full[i] == b[i];
    }
    if c in b {
      var j :| 0 <= j < |b| && b[j] == c;
      assert full[j] == c;
    }
  }

  /** One more customer only appends to a bucket. */
  lemma ExpectedBucketPrefix(cs: seq<Customer>, k: string, dedup: bool)
    requires cs != []
    ensures var b := ExpectedBucket(cs[..|cs| - 1], k, dedup);
      |b| <= |ExpectedBucket(cs, k, dedup)| && ExpectedBucket(cs, k, dedup)[..|b|] == b
  {
  }

  /** The last enumerated customer, when it has a phone keyed `k`, is represented
      in the bucket of `k`. */
  lemma ExpectedBucketCompleteLast(cs: seq<Customer>, k: string, dedup: bool)
    requires cs != [] && HasKey(cs[|cs| - 1], k)
    ensures HasId(ExpectedBucket(cs, k, dedup), cs[|cs| - 1].id)
    ensures !dedup ==> cs[|cs| - 1] in ExpectedBucket(cs, k, dedup)
  {
    var c := cs[|cs| - 1];
    var b := ExpectedBucket(cs[..|cs| - 1], k, dedup);
    assert ExpectedBucket(cs, k, dedup)[..|b|] == b;
    if dedup {
      if !HasId(b, c.id) {
        HasIdAppended(b, c);
      }
    } else {
      PhonesToIndexKeys(c, k, false);
      assert ExpectedBucket(cs, k, dedup)[|b|] == c;
    }
  }

  /** With dedup, a bucket never lists two customers with the same id. */
  lemma {:induction false} ExpectedBucketUniqueIds(cs: seq<Customer>, k: string)
    ensures UniqueIds(ExpectedBucket(cs, k, true))
  {
    if cs != [] {
      ExpectedBucketUniqueIds(cs[..|cs| - 1], k);
    }
  }

  /** After a controller build, no bucket contains two customers with the same id,
      even when both phones of a customer end with the same four digits. */
  lemma BuildIndexUniqueIds(cs: seq<Customer>, k: string)
    ensures UniqueIds(Bucket(BuildIndex(cs, true), k))
  {
    BuildIndexBuckets(cs, true, k);
    ExpectedBucketUniqueIds(cs, k);
  }

  /** Every key of a built index is the last four digits of a digit-stripped phone
      of at least four digits of a listed customer, and that customer's phone ends
      with the key. */
  lemma BuildIndexSound(cs: seq<Customer>, dedup: bool)
    ensures Sound(BuildIndex(cs, dedup))
    ensures forall k, c :: k in BuildIndex(cs, dedup) && c in BuildIndex(cs, dedup)[k] ==> c in cs && HasKey(c, k)
  {
    var idx := BuildIndex(cs, dedup);
    forall k | k in idx
      ensures IsFourDigits(k) && idx[k] != []
      ensures forall c :: c in idx[k] ==> c in cs && HasKey(c, k) && MatchesLast4(c, k)
    {
      BuildIndexBuckets(cs, dedup, k);
      ExpectedBucketSound(cs, k, dedup);
      var c0 := idx[k][0];
      KeyIsSuffix(c0, k);
      forall c | c in idx[k] ensures c in cs && HasKey(c, k) && MatchesLast4(c, k) {
        KeyIsSuffix(c, k);
      }
    }
  }

  /** Every phone of at least four digits of every enumerated customer puts that
      customer (or, with dedup, an earlier one with the same id) in the bucket keyed
      by its last four digits. */
  lemma BuildIndexComplete(cs: seq<Customer>, dedup: bool, c: Customer, p: string)
    requires c in cs && p in Phones(c) && |Digits(p)| >= 4
    ensures Last4(Digits(p)) in BuildIndex(cs, dedup)
    ensures HasId(BuildIndex(cs, dedup)[Last4(Digits(p))], c.id)
    ensures !dedup ==> c in BuildIndex(cs, dedup)[Last4(Digits(p))]
  {
    var k := Last4(Digits(p));
    assert PhoneKey(p) == Some(k);
    BuildIndexBuckets(cs, dedup, k);
    ExpectedBucketComplete(cs, k, dedup, c);
  }

  /** A customer whose primary and address phones share their last four digits is
      listed twice under that suffix by the legacy build and once by the controller's. */
  lemma SharedSuffixListing(c: Customer, k: string)
    requires c.phone != [] && c.addressPhone != [] && c.phone != c.addressPhone
    requires PhoneKey(c.phone) == Some(k) && PhoneKey(c.addressPhone) == Some(k)
    ensures Bucket(BuildIndex([c], false), k) == [c, c]
    ensures Bucket(BuildIndex([c], true), k) == [c]
  {
    SharedSuffixListedTwice(c, k);
    SharedSuffixListedOnce(c, k);
  }

  lemma SharedSuffixListedTwice(c: Customer, k: string)
    requires c.phone != [] && c.addressPhone != []
    requires PhoneKey(c.phone) == Some(k) && PhoneKey(c.addressPhone) == Some(k)
    ensures Bucket(BuildIndex([c], false), k) == [c, c]
  {
    assert [c][..0] == [];
    IndexPhonesBucket(map[], c, Phones(c), false, k);
    var ps := Phones(c);
    assert ps == [c.phone, c.addressPhone];
    assert ps[0] == c.phone && ps[1..] == [c.addressPhone] && ps[1..][1..] == [];
    assert KeyCount(ps[1..][1..], k) == 0;
    assert KeyCount(ps[1..], k) == 1;
    assert KeyCount(ps, k) == 2;
    assert Repeat(c, 2) == [c, c];
  }

  lemma SharedSuffixListedOnce(c: Customer, k: string)
    requires c.phone != [] && PhoneKey(c.phone) == Some(k)
    ensures Bucket(BuildIndex([c], true), k) == [c]
  {
    assert [c][..0] == [];
    IndexPhonesBucket(map[], c, UniquePhones(c), true, k);
  }
}
