/** The front desk's ticket tabs: the pairs of shoes of a ticket and their
    services, the choice of a new tab's number, the accessories and the payment
    status of the current tab. */
module TicketTabs {
  import opened Common

  /** A service on a pair, with its price in whole euros (0 when the price is missing). */
  datatype Prestation = Prestation(kind: string, prix: int)

  /** A pair of shoes on a ticket: its number (from 1), label, services and total. */
  datatype Paire = Paire(id: int, nom: string, prestations: seq<Prestation>, total: int)

  /** The fields of a tab the modelled handlers read or write. */
  datatype Tab = Tab(
    id: int,
    title: string,
    telephone: string,
    nbPaires: nat,
    paires: seq<Paire>,
    paymentStatus: Option<string>,
    avecSac: bool,
    accessoires: seq<string>)

  /** The decimal digits of `n`, as a template literal shows it. */
  function NatToString(n: nat): (r: string)
    ensures |r| >= 1
    ensures forall i :: 0 <= i < |r| ==> '0' <= r[i] <= '9'
  {
    if n < 10 then [(n + '0' as int) as char]
    else NatToString(n / 10) + [(n % 10 + '0' as int) as char]
  }

  /** `Paire ${i}`. */
  function DefaultName(i: nat): string {
    "Paire " + NatToString(i)
  }

  /** A tab as `createNewTab` creates it: numbered `id`, with nothing on it. */
  function EmptyTab(id: nat): Tab {
    Tab(id, "Ticket " + NatToString(id), "", 0, [], None, false, [])
  }

  // ---------------------------------------------------------------------------
  // updateNbPaires.

  /** The sum of the prices of the services, a missing price counting 0. */
  function PricesTotal(ps: seq<Prestation>): int {
    if ps == [] then 0 else PricesTotal(ps[..|ps| - 1]) + ps[|ps| - 1].prix
  }

  /** The first pair with the id `id`, if any. */
  function FindPaire(ps: seq<Paire>, id: int): (r: Option<Paire>)
    ensures r.Some? ==> r.value in ps && r.value.id == id
    ensures r.None? ==> forall k :: 0 <= k < |ps| ==> ps[k].id != id
  {
    if ps == [] then None
    else if ps[0].id == id then Some(ps[0])
    else FindPaire(ps[1..], id)
  }

  /** Pair `i` of the new list before its total is recomputed: the previous pair
      with that number (its label defaulting to `Paire i`) when `i` is at most
      the previous count and such a pair exists, and an empty pair otherwise. */
  function Slot(previous: seq<Paire>, previousNb: nat, i: nat): Paire {
    if i <= previousNb then
      match FindPaire(previous, i)
      case Some(p) => Paire(i, if p.nom != [] then p.nom else DefaultName(i), p.prestations, p.total)
      case None => Paire(i, DefaultName(i), [], 0)
    else Paire(i, DefaultName(i), [], 0)
  }

  /** The pair with its total recomputed from its services. */
  function Retotalled(p: Paire): Paire {
    p.(total := PricesTotal(p.prestations))
  }

  /** The `n` pairs after a resize from `previousNb` pairs, totals recomputed. */
  function ResizedPairs(previous: seq<Paire>, previousNb: nat, n: nat): (r: seq<Paire>)
    ensures |r| == n
    ensures forall k :: 0 <= k < n ==> r[k] == Retotalled(Slot(previous, previousNb, k + 1))
  {
    seq(n, k requires 0 <= k < n => Retotalled(Slot(previous, previousNb, k + 1)))
  }

  /** The tab after `updateNbPaires(n)`: unchanged for 0 or for the current
      count, and otherwise `n` pairs numbered 1 to `n`. */
  function UpdatedTab(tab: Tab, n: nat): Tab {
    if n == 0 || n == tab.nbPaires then tab
    else tab.(nbPaires := n, paires := ResizedPairs(tab.paires, tab.nbPaires, n))
  }

  /** What the resize promises: exactly `n` pairs numbered 1 to `n`, each total the
      sum of its prices, the services of every kept pair carried over, and the
      added pairs empty. */
  lemma UpdatedTabShape(tab: Tab, n: nat)
    requires n != 0 && n != tab.nbPaires
    ensures var t := UpdatedTab(tab, n);
      t.nbPaires == n && |t.paires| == n
      && (forall k :: 0 <= k < n ==> t.paires[k].id == k + 1 && t.paires[k].total == PricesTotal(t.paires[k].prestations))
      && (forall k :: 0 <= k < n && k < tab.nbPaires && FindPaire(tab.paires, k + 1).Some? ==>
            t.paires[k].prestations == FindPaire(tab.paires, k + 1).value.prestations)
      && (forall k :: tab.nbPaires <= k < n ==> t.paires[k].prestations == [] && t.paires[k].total == 0)
  {
    var t := UpdatedTab(tab, n);
    forall k | 0 <= k < n
      ensures t.paires[k].id == k + 1 && t.paires[k].total == PricesTotal(t.paires[k].prestations)
      ensures k < tab.nbPaires && FindPaire(tab.paires, k + 1).Some? ==>
        t.paires[k].prestations == FindPaire(tab.paires, k + 1).value.prestations
      ensures tab.nbPaires <= k ==> t.paires[k].prestations == [] && t.paires[k].total == 0
    {
      assert t.paires[k] == Retotalled(Slot(tab.paires, tab.nbPaires, k + 1));
    }
  }

  /** Shrinking and growing back keeps the services of the pairs that survived
      the shrink, and empties the others. */
  lemma ShrinkThenGrow(tab: Tab, m: nat)
    requires 0 < m < tab.nbPaires
    ensures var t := UpdatedTab(UpdatedTab(tab, m), tab.nbPaires);
      |t.paires| == tab.nbPaires
      && (forall k :: 0 <= k < m && FindPaire(tab.paires, k + 1).Some? ==>
            t.paires[k].prestations == FindPaire(tab.paires, k + 1).value.prestations)
      && (forall k :: m <= k < tab.nbPaires ==> t.paires[k].prestations == [])
  {
    var s := UpdatedTab(tab, m);
    UpdatedTabShape(tab, m);
    UpdatedTabShape(s, tab.nbPaires);
    var t := UpdatedTab(s, tab.nbPaires);
    forall k | 0 <= k < m && FindPaire(tab.paires, k + 1).Some?
      ensures t.paires[k].prestations == FindPaire(tab.paires, k + 1).value.prestations
    {
      FindNumbered(s.paires, k);
      assert t.paires[k] == Retotalled(Slot(s.paires, m, k + 1));
    }
  }

  /** In a list numbered 1, 2, ..., pair `k + 1` sits at position `k`. */
  lemma {:induction false} FindNumbered(ps: seq<Paire>, k: nat)
    requires k < |ps|
    requires forall j :: 0 <= j < |ps| ==> ps[j].id == j + 1
    ensures FindPaire(ps, k + 1) == Some(ps[k])
  {
    var j := 0;
    while j < k
      invariant j <= k
      invariant FindPaire(ps, k + 1) == FindPaire(ps[j..], k + 1)
    {
      assert ps[j..][0].id == j + 1;
      assert ps[j..][1..] == ps[j + 1..];
      j := j + 1;
    }
    assert ps[k..][0] == ps[k];
  }

  // ---------------------------------------------------------------------------
  // Accessories and payment.

  /** Checking an accessory: appended when it is not already there. */
  function Checked(accessoires: seq<string>, sac: string): (r: seq<string>)
    ensures sac in r
  {
    if sac in accessoires then accessoires else accessoires + [sac]
  }

  /** The accessories other than `sac`, in their order. */
  function Without(accessoires: seq<string>, sac: string): (r: seq<string>)
    ensures |r| <= |accessoires|
  {
    if accessoires == [] then []
    else (if accessoires[0] == sac then [] else [accessoires[0]]) + Without(accessoires[1..], sac)
  }

  /** No accessory is listed twice. */
  predicate Distinct(xs: seq<string>) {
    forall i, j :: 0 <= i < j < |xs| ==> xs[i] != xs[j]
  }

  /** Checking keeps every other accessory, adds the checked one, and never lists
      an accessory twice. */
  lemma CheckedSound(accessoires: seq<string>, sac: string)
    ensures forall x :: x in Checked(accessoires, sac) <==> x in accessoires || x == sac
    ensures Distinct(accessoires) ==> Distinct(Checked(accessoires, sac))
    ensures StartsWithSeq(Checked(accessoires, sac), accessoires)
  {
  }

  /** `xs` begins with `prefix`. */
  predicate StartsWithSeq(xs: seq<string>, prefix: seq<string>) {
    |prefix| <= |xs| && xs[..|prefix|] == prefix
  }

  /** Unchecking removes every occurrence and keeps every other accessory in its
      order. */
  lemma {:induction false} WithoutSound(accessoires: seq<string>, sac: string)
    ensures sac !in Without(accessoires, sac)
    ensures forall x :: x != sac ==> (x in Without(accessoires, sac) <==> x in accessoires)
    ensures sac !in accessoires ==> Without(accessoires, sac) == accessoires
    ensures Distinct(accessoires) ==> Distinct(Without(accessoires, sac))
  {
    if accessoires != [] {
      WithoutSound(accessoires[1..], sac);
      var rest := Without(accessoires[1..], sac);
      if sac !in accessoires {
        assert accessoires == [accessoires[0]] + accessoires[1..];
      }
      if Distinct(accessoires) && accessoires[0] != sac {
        assert accessoires[0] !in accessoires[1..];
        assert accessoires[0] !in rest;
        var r := [accessoires[0]] + rest;
        forall i, j | 0 <= i < j < |r| ensures r[i] != r[j] {
          if i == 0 {
            assert r[j] == rest[j - 1];
          } else {
            assert r[i] == rest[i - 1] && r[j] == rest[j - 1];
          }
        }
      }
    }
  }

  /** The accessories of the tab after the checkbox for `sac` changed to `checked`. */
  function Toggle(accessoires: seq<string>, sac: string, checked: bool): seq<string> {
    if checked then Checked(accessoires, sac) else Without(accessoires, sac)
  }

  /** Checking and then unchecking an accessory that was not listed restores the
      list. */
  lemma CheckUncheck(accessoires: seq<string>, sac: string)
    requires sac !in accessoires
    ensures Without(Checked(accessoires, sac), sac) == accessoires
  {
    WithoutAppend(accessoires, [sac], sac);
    WithoutSound(accessoires, sac);
    assert Without([sac], sac) == [];
  }

  lemma {:induction false} WithoutAppend(a: seq<string>, b: seq<string>, sac: string)
    ensures Without(a + b, sac) == Without(a, sac) + Without(b, sac)
  {
    if a == [] {
      assert a + b == b;
    } else {
      assert (a + b)[0] == a[0] && (a + b)[1..] == a[1..] + b;
      WithoutAppend(a[1..], b, sac);
    }
  }

  /** The payment status after choosing `status`: chosen again, it is cleared. */
  function Toggled(current: Option<string>, status: string): (r: Option<string>)
    ensures r == Some(status) <==> current != Some(status)
    ensures r == None <==> current == Some(status)
  {
    if current == Some(status) then None else Some(status)
  }

  /** Choosing the same status twice returns to no status or to that status. */
  lemma ToggledTwice(current: Option<string>, status: string)
    requires current == None || current == Some(status)
    ensures Toggled(Toggled(current, status), status) == current
  {
  }

  // ---------------------------------------------------------------------------
  // The global state.

  /** The first number missing from the increasing list of positive numbers
      `ids`. */
  predicate SmallestFree(ids: seq<int>, n: int) {
    n >= 1 && n !in ids && forall j :: 1 <= j < n ==> j in ids
  }

  /** Strictly increasing positive numbers: the sorted keys of the tab map. */
  predicate SortedPositive(ids: seq<int>) {
    (forall i :: 0 <= i < |ids| ==> ids[i] >= 1)
    && forall i, j :: 0 <= i < j < |ids| ==> ids[i] < ids[j]
  }

  /** The first free tab number: the loop of `createNewTab` over the sorted ids. */
  method FirstFreeId(existingIds: seq<int>) returns (newTabId: int)
    requires SortedPositive(existingIds)
    ensures SmallestFree(existingIds, newTabId)
    ensures newTabId <= |existingIds| + 1
  {
    newTabId := 1;
    var i := 0;
    while i < |existingIds|
      invariant 0 <= i <= |existingIds|
      invariant forall k :: 0 <= k < i ==> existingIds[k] == k + 1
      invariant newTabId == i + 1
    {
      if existingIds[i] != i + 1 {
        newTabId := i + 1;
        assert existingIds[i] > i + 1 by {
          if i > 0 {
            assert existingIds[i - 1] < existingIds[i];
          }
        }
        assert forall k :: i <= k < |existingIds| ==> existingIds[k] > i + 1 by {
          forall k | i < k < |existingIds| ensures existingIds[k] > i + 1 {
            assert existingIds[i] < existingIds[k];
          }
        }
        FreeAt(existingIds, i);
        return;
      }
      newTabId := existingIds[i] + 1;
      i := i + 1;
    }
    FreeAt(existingIds, i);
  }

  /** When the first `i` ids are 1 to `i` and the others exceed `i + 1`, the number
      `i + 1` is the smallest free one. */
  lemma FreeAt(ids: seq<int>, i: nat)
    requires i <= |ids|
    requires forall k :: 0 <= k < i ==> ids[k] == k + 1
    requires forall k :: i <= k < |ids| ==> ids[k] > i + 1
    ensures SmallestFree(ids, i + 1)
  {
    forall j | 1 <= j < i + 1 ensures j in ids {
      assert ids[j - 1] == j;
    }
  }

  class GlobalState {
    var tabs: map<int, Tab>
    var currentTabId: int
    var nextTabId: int

    /** Tabs are numbered from 1 and each tab knows its number. */
    ghost predicate Valid()
      reads this
    {
      forall id :: id in tabs ==> id >= 1 && tabs[id].id == id
    }

    /** The state at page load: one empty tab, numbered 1 and current. */
    constructor()
      ensures Valid()
      ensures tabs == map[1 := EmptyTab(1)] && currentTabId == 1 && nextTabId == 2
    {
      tabs := map[1 := EmptyTab(1)];
      currentTabId := 1;
      nextTabId := 2;
    }

    /** `updateNbPaires(n)` on the current tab. */
    method UpdateNbPaires(n: nat)
      requires Valid()
      modifies this
      ensures Valid()
      ensures currentTabId == old(currentTabId) && nextTabId == old(nextTabId)
      ensures tabs == if currentTabId in old(tabs) then old(tabs)[currentTabId := UpdatedTab(old(tabs)[currentTabId], n)]
                      else old(tabs)
    {
      if n == 0 {
        return;
      }
      if currentTabId !in tabs {
        return;
      }
      var tab := tabs[currentTabId];
      var previousNbPaires := tab.nbPaires;
      if n == previousNbPaires {
        return;
      }
      var newPaires := RebuildPaires(tab.paires, previousNbPaires, n);
      tabs := tabs[currentTabId := tab.(nbPaires := n, paires := newPaires)];
    }

    /** `setPaymentStatus(status)` on the current tab. */
    method SetPaymentStatus(status: string)
      requires Valid()
      modifies this
      ensures Valid()
      ensures currentTabId == old(currentTabId) && nextTabId == old(nextTabId)
      ensures tabs == if currentTabId in old(tabs)
        then old(tabs)[currentTabId := old(tabs)[currentTabId].(paymentStatus := Toggled(old(tabs)[currentTabId].paymentStatus, status))]
        else old(tabs)
    {
      if currentTabId !in tabs {
        return;
      }
      var currentTab := tabs[currentTabId];
      if currentTab.paymentStatus == Some(status) {
        currentTab := currentTab.(paymentStatus := None);
      } else {
        currentTab := currentTab.(paymentStatus := Some(status));
      }
      tabs := tabs[currentTabId := currentTab];
    }

    /** `handleSacCheckboxChange` for the accessory `sac` and the new state of its
        box: `avecSac` then says whether any accessory is listed. */
    method HandleSacCheckboxChange(sac: string, checked: bool)
      requires Valid()
      modifies this
      ensures Valid()
      ensures currentTabId == old(currentTabId) && nextTabId == old(nextTabId)
      ensures tabs == if currentTabId in old(tabs)
        then old(tabs)[currentTabId := old(tabs)[currentTabId].(
          accessoires := Toggle(old(tabs)[currentTabId].accessoires, sac, checked),
          avecSac := Toggle(old(tabs)[currentTabId].accessoires, sac, checked) != [])]
        else old(tabs)
    {
      if currentTabId !in tabs {
        return;
      }
      var currentTab := tabs[currentTabId];
      var accessoires := currentTab.accessoires;
      if checked {
        if sac !in accessoires {
          accessoires := accessoires + [sac];
        }
      } else {
        accessoires := Without(accessoires, sac);
      }
      currentTab := currentTab.(accessoires := accessoires, avecSac := |accessoires| > 0);
      tabs := tabs[currentTabId := currentTab];
    }

    /** `createNewTab`, given the tab numbers in increasing order (what sorting
        `Object.keys(globalState.tabs)` gives): the new tab takes the smallest free
        number, becomes current, and `nextTabId` goes one past the largest number. */
    method CreateNewTab(existingIds: seq<int>) returns (newTabId: int)
      requires Valid()
      requires SortedPositive(existingIds)
      requires forall id :: id in tabs <==> id in existingIds
      modifies this
      ensures Valid()
      ensures SmallestFree(existingIds, newTabId) && newTabId !in old(tabs)
      ensures tabs == old(tabs)[newTabId := EmptyTab(newTabId)]
      ensures currentTabId == newTabId
      ensures (nextTabId - 1) in tabs && forall id :: id in tabs ==> id < nextTabId
    {
      newTabId := FirstFreeId(existingIds);
      tabs := tabs[newTabId := EmptyTab(newTabId)];
      if existingIds == [] || existingIds[|existingIds| - 1] < newTabId {
        nextTabId := newTabId + 1;
      } else {
        nextTabId := existingIds[|existingIds| - 1] + 1;
        assert existingIds[|existingIds| - 1] in existingIds;
      }
      assert forall id :: id in old(tabs) ==> id <= existingIds[|existingIds| - 1] by {
        forall id | id in old(tabs) ensures id <= existingIds[|existingIds| - 1] {
          var k :| 0 <= k < |existingIds| && existingIds[k] == id;
          if k < |existingIds| - 1 {
            assert existingIds[k] < existingIds[|existingIds| - 1];
          }
        }
      }
      currentTabId := newTabId;
    }
  }

  /** The loops of `updateNbPaires` that rebuild the list of pairs, then the pass
      that recomputes every total. */
  method RebuildPaires(previous: seq<Paire>, previousNb: nat, n: nat) returns (newPaires: seq<Paire>)
    ensures newPaires == ResizedPairs(previous, previousNb, n)
  {
    var slots := CopyPaires(previous, previousNb, n);
    newPaires := RetotalAll(slots);
    assert forall k :: 0 <= k < n ==> newPaires[k] == Retotalled(Slot(previous, previousNb, k + 1));
  }

  /** The copying loops: kept pairs up to the smaller count, then empty pairs. */
  method CopyPaires(previous: seq<Paire>, previousNb: nat, n: nat) returns (newPaires: seq<Paire>)
    ensures |newPaires| == n
    ensures forall k :: 0 <= k < n ==> newPaires[k] == Slot(previous, previousNb, k + 1)
  {
    newPaires := [];
    var kept := if n > previousNb then previousNb else n;
    var i := 1;
    while i <= kept
      invariant 1 <= i <= kept + 1
      invariant |newPaires| == i - 1
      invariant forall k :: 0 <= k < i - 1 ==> newPaires[k] == Slot(previous, previousNb, k + 1)
    {
      var existing := FindPaire(previous, i);
      if existing.Some? {
        var p := existing.value;
        newPaires := newPaires + [Paire(i, if p.nom != [] then p.nom else DefaultName(i), p.prestations, p.total)];
      } else {
        newPaires := newPaires + [Paire(i, DefaultName(i), [], 0)];
      }
      i := i + 1;
    }
    newPaires := AddEmptyPaires(newPaires, previous, previousNb, n);
  }

  /** The loop that appends the new, empty pairs after the previous count. */
  method AddEmptyPaires(start: seq<Paire>, previous: seq<Paire>, previousNb: nat, n: nat) returns (newPaires: seq<Paire>)
    requires |start| <= n && (|start| < n ==> |start| == previousNb)
    requires forall k :: 0 <= k < |start| ==> start[k] == Slot(previous, previousNb, k + 1)
    ensures |newPaires| == n
    ensures forall k :: 0 <= k < n ==> newPaires[k] == Slot(previous, previousNb, k + 1)
  {
    newPaires := start;
    var i := |start| + 1;
    while i <= n
      invariant |start| + 1 <= i <= n + 1
      invariant |newPaires| == i - 1
      invariant forall k :: 0 <= k < i - 1 ==> newPaires[k] == Slot(previous, previousNb, k + 1)
    {
      newPaires := newPaires + [Paire(i, DefaultName(i), [], 0)];
      i := i + 1;
    }
  }

  /** Recomputes the total of every pair. */
  method RetotalAll(paires: seq<Paire>) returns (r: seq<Paire>)
    ensures |r| == |paires|
    ensures forall k :: 0 <= k < |paires| ==> r[k] == Retotalled(paires[k])
  {
    r := paires;
    for j := 0 to |paires|
      invariant |r| == |paires|
      invariant forall k :: 0 <= k < j ==> r[k] == Retotalled(paires[k])
      invariant forall k :: j <= k < |paires| ==> r[k] == paires[k]
    {
      var sum := SumPrices(r[j].prestations);
      r := r[j := r[j].(total := sum)];
    }
  }

  /** The `reduce` that sums the prices of a pair's services. */
  method SumPrices(ps: seq<Prestation>) returns (sum: int)
    ensures sum == PricesTotal(ps)
  {
    sum := 0;
    for i := 0 to |ps|
      invariant sum == PricesTotal(ps[..i])
    {
      assert ps[..i + 1][..i] == ps[..i];
      sum := sum + ps[i].prix;
    }
    assert ps[..|ps|] == ps;
  }
}
