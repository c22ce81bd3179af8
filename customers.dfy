/** A customer record as the lookup sees it, and the phone-suffix notions shared
    by the index build, the live scan and the GraphQL filter. */
module Customers {
  import opened Common
  import opened Text

  /** A customer of the e-commerce platform. `phone` is the primary phone and
      `addressPhone` the phone of the default address; the empty string stands
      for a missing, `null` or empty field (all falsy in the source). The name and
      e-mail fields are carried through unchanged. */
  datatype Customer = Customer(
    id: string,
    firstName: string,
    lastName: string,
    email: string,
    phone: string,
    addressPhone: string)

  /** The phones collected for a customer: the primary phone, then the default
      address phone, each only when present. */
  function Phones(c: Customer): (ps: seq<string>)
    ensures forall p :: p in ps ==> p != [] && (p == c.phone || p == c.addressPhone)
    ensures c.phone != [] ==> c.phone in ps
    ensures c.addressPhone != [] ==> c.addressPhone in ps
  {
    (if c.phone != [] then [c.phone] else []) + (if c.addressPhone != [] then [c.addressPhone] else [])
  }

  /** `[...new Set(phones)]`: the same phones with a repeated one dropped. */
  function UniquePhones(c: Customer): (ps: seq<string>)
    ensures forall p :: p in ps <==> p in Phones(c)
    ensures forall i, j :: 0 <= i < j < |ps| ==> ps[i] != ps[j]
  {
    if c.phone != [] && c.addressPhone == c.phone then [c.phone] else Phones(c)
  }

  /** The index key of a phone: the last four of its digits, when it has at least four. */
  function PhoneKey(p: string): (k: Option<string>)
    ensures k.Some? <==> |Digits(p)| >= 4
    ensures k.Some? ==> IsFourDigits(k.value) && EndsWith(Digits(p), k.value)
  {
    var d := Digits(p);
    if |d| >= 4 then Some(Last4(d)) else None
  }

  /** The customer has a phone whose key is `k`. */
  predicate HasKey(c: Customer, k: string) {
    exists p :: p in Phones(c) && PhoneKey(p) == Some(k)
  }

  /** Some phone's digit string ends with `last4`. */
  predicate AnyEndsWith(phones: seq<string>, last4: string) {
    phones != [] && (EndsWith(Digits(phones[0]), last4) || AnyEndsWith(phones[1..], last4))
  }

  lemma {:induction false} AnyEndsWithSome(phones: seq<string>, last4: string)
    ensures AnyEndsWith(phones, last4) <==> exists p :: p in phones && EndsWith(Digits(p), last4)
  {
    if phones != [] {
      AnyEndsWithSome(phones[1..], last4);
      if EndsWith(Digits(phones[0]), last4) {
        assert phones[0] in phones;
      } else if p :| p in phones && EndsWith(Digits(p), last4) {
        assert p in phones[1..];
      }
    }
  }

  /** The customer has a phone whose digits end with `last4`. */
  predicate MatchesLast4(c: Customer, last4: string) {
    AnyEndsWith(Phones(c), last4)
  }

  /** For a four-digit suffix, "some phone ends with it" and "it is the key of some
      phone" are the same thing, and every key is four digits: the index and the
      live scan agree on which customers a suffix selects. */
  lemma KeyIsSuffix(c: Customer, k: string)
    ensures HasKey(c, k) ==> IsFourDigits(k) && MatchesLast4(c, k)
    ensures IsFourDigits(k) && MatchesLast4(c, k) ==> HasKey(c, k)
  {
    AnyEndsWithSome(Phones(c), k);
    if IsFourDigits(k) && MatchesLast4(c, k) {
      var p :| p in Phones(c) && EndsWith(Digits(p), k);
      assert PhoneKey(p) == Some(k);
    }
  }

  /** Some customer of `list` has the id `id`. */
  predicate HasId(list: seq<Customer>, id: string) {
    exists i :: 0 <= i < |list| && list[i].id == id
  }

  /** No two entries share an id. */
  predicate UniqueIds(list: seq<Customer>) {
    forall i, j :: 0 <= i < j < |list| ==> list[i].id != list[j].id
  }
}
