/**
 The rankings dialog: the two leaderboards (by streak and by donations
 received), the rank badge of each row, who gets a donate button, and the
 donate flow for the selected row.

 Both leaderboards are `[...users].sort((a, b) => b.key - a.key)`: a copy
 of the list, sorted by a stable sort into non-increasing key order. The
 model sorts by insertion, which is stable by construction.
 */
module Rankings {
  import opened Wrappers
  import opened BrujulaClient
  import Text

  datatype Ordering = ByStreak | ByDonations

  function Key(o: Ordering, e: RankingEntry): nat {
    match o
    case ByStreak => e.streak
    case ByDonations => e.donations
  }

  predicate NonIncreasing(o: Ordering, s: seq<RankingEntry>) {
    forall i, j :: 0 <= i < j < |s| ==> Key(o, s[i]) >= Key(o, s[j])
  }

  /** Put `x` in front of the first entry whose key is not larger than its own. */
  function Insert(o: Ordering, x: RankingEntry, s: seq<RankingEntry>): (r: seq<RankingEntry>)
    ensures |r| == |s| + 1
    ensures multiset(r) == multiset(s) + multiset{x}
    decreases |s|
  {
    if |s| == 0 then [x]
    else if Key(o, x) >= Key(o, s[0]) then [x] + s
    else
      var rest := Insert(o, x, s[1..]);
      assert s == [s[0]] + s[1..];
      [s[0]] + rest
  }

  lemma {:induction false} InsertSorted(o: Ordering, x: RankingEntry, s: seq<RankingEntry>)
    requires NonIncreasing(o, s)
    ensures NonIncreasing(o, Insert(o, x, s))
    decreases |s|
  {
    if |s| == 0 {
    } else if Key(o, x) >= Key(o, s[0]) {
      assert Bounded(o, s, Key(o, x)) by {
        forall i | 0 <= i < |s| ensures Key(o, s[i]) <= Key(o, x) {
          assert i == 0 || Key(o, s[0]) >= Key(o, s[i]);
        }
      }
      ConsSorted(o, x, s);
    } else {
      var rest := Insert(o, x, s[1..]);
      NonIncreasingTail(o, s);
      InsertSorted(o, x, s[1..]);
      InsertBounded(o, x, s[1..], Key(o, s[0]));
      ConsSorted(o, s[0], rest);
    }
  }

  /** Every key in `s` is at most `bound`. */
  predicate Bounded(o: Ordering, s: seq<RankingEntry>, bound: nat) {
    forall i :: 0 <= i < |s| ==> Key(o, s[i]) <= bound
  }

  lemma NonIncreasingTail(o: Ordering, s: seq<RankingEntry>)
    requires s != [] && NonIncreasing(o, s)
    ensures NonIncreasing(o, s[1..]) && Bounded(o, s[1..], Key(o, s[0]))
  {
    assert forall i :: 0 <= i < |s[1..]| ==> s[1..][i] == s[i + 1];
  }

  /** An entry in front of a sorted list whose keys it bounds keeps the list sorted. */
  lemma ConsSorted(o: Ordering, e: RankingEntry, t: seq<RankingEntry>)
    requires NonIncreasing(o, t) && Bounded(o, t, Key(o, e))
    ensures NonIncreasing(o, [e] + t)
  {
    var r := [e] + t;
    forall i, j | 0 <= i < j < |r| ensures Key(o, r[i]) >= Key(o, r[j]) {
      assert r[j] == t[j - 1];
      if i > 0 {
        assert r[i] == t[i - 1];
      }
    }
  }

  lemma BoundedCons(o: Ordering, e: RankingEntry, t: seq<RankingEntry>, bound: nat)
    requires Key(o, e) <= bound && Bounded(o, t, bound)
    ensures Bounded(o, [e] + t, bound)
  {
    var r := [e] + t;
    forall i | 0 <= i < |r| ensures Key(o, r[i]) <= bound {
      if i > 0 {
        assert r[i] == t[i - 1];
      }
    }
  }

  /** Inserting under a bound every key respects keeps every key under it. */
  lemma {:induction false} InsertBounded(o: Ordering, x: RankingEntry, s: seq<RankingEntry>, bound: nat)
    requires Key(o, x) <= bound && Bounded(o, s, bound)
    ensures Bounded(o, Insert(o, x, s), bound)
    decreases |s|
  {
    if |s| > 0 && Key(o, x) < Key(o, s[0]) {
      assert Bounded(o, s[1..], bound) by {
        assert forall i :: 0 <= i < |s[1..]| ==> s[1..][i] == s[i + 1];
      }
      InsertBounded(o, x, s[1..], bound);
      BoundedCons(o, s[0], Insert(o, x, s[1..]), bound);
    } else {
      BoundedCons(o, x, s, bound);
    }
  }

  /** The sorted copy: a permutation of the input in non-increasing key order. */
  function SortDescending(o: Ordering, s: seq<RankingEntry>): (r: seq<RankingEntry>)
    ensures |r| == |s|
    ensures multiset(r) == multiset(s)
    ensures NonIncreasing(o, r)
    decreases |s|
  {
    if |s| == 0 then []
    else
      var rest := SortDescending(o, s[1..]);
      assert s == [s[0]] + s[1..];
      InsertSorted(o, s[0], rest);
      Insert(o, s[0], rest)
  }

  /** The entries with key `k`, in order. */
  function WithKey(o: Ordering, k: nat, s: seq<RankingEntry>): seq<RankingEntry>
    decreases |s|
  {
    if |s| == 0 then []
    else (if Key(o, s[0]) == k then [s[0]] else []) + WithKey(o, k, s[1..])
  }

  lemma {:induction false} InsertWithKey(o: Ordering, k: nat, x: RankingEntry, s: seq<RankingEntry>)
    requires NonIncreasing(o, s)
    ensures WithKey(o, k, Insert(o, x, s)) == (if Key(o, x) == k then [x] else []) + WithKey(o, k, s)
    decreases |s|
  {
    if |s| == 0 || Key(o, x) >= Key(o, s[0]) {
      InsertFront(o, x, s);
      WithKeyCons(o, k, x, s);
    } else {
      var rest := Insert(o, x, s[1..]);
      InsertBehind(o, x, s);
      NonIncreasingTail(o, s);
      InsertWithKey(o, k, x, s[1..]);
      WithKeyCons(o, k, s[0], rest);
      WithKeyCons(o, k, s[0], s[1..]);
      assert [s[0]] + s[1..] == s;
      var a := if Key(o, s[0]) == k then [s[0]] else [];
      var b := if Key(o, x) == k then [x] else [];
      Swap(a, b, WithKey(o, k, s[1..]));
    }
  }

  lemma InsertFront(o: Ordering, x: RankingEntry, s: seq<RankingEntry>)
    requires |s| == 0 || Key(o, x) >= Key(o, s[0])
    ensures Insert(o, x, s) == [x] + s
  {
  }

  lemma InsertBehind(o: Ordering, x: RankingEntry, s: seq<RankingEntry>)
    requires |s| > 0 && Key(o, x) < Key(o, s[0])
    ensures Insert(o, x, s) == [s[0]] + Insert(o, x, s[1..])
  {
  }

  lemma WithKeyCons(o: Ordering, k: nat, e: RankingEntry, t: seq<RankingEntry>)
    ensures WithKey(o, k, [e] + t) == (if Key(o, e) == k then [e] else []) + WithKey(o, k, t)
  {
    assert ([e] + t)[1..] == t;
  }

  lemma Swap(a: seq<RankingEntry>, b: seq<RankingEntry>, c: seq<RankingEntry>)
    requires a == [] || b == []
    ensures a + (b + c) == b + (a + c)
  {
  }

  /** Stability: among entries with equal keys the sorted copy keeps the input order. */
  lemma {:induction false} SortStable(o: Ordering, k: nat, s: seq<RankingEntry>)
    ensures WithKey(o, k, SortDescending(o, s)) == WithKey(o, k, s)
    decreases |s|
  {
    if |s| > 0 {
      SortStable(o, k, s[1..]);
      InsertWithKey(o, k, s[0], SortDescending(o, s[1..]));
    }
  }

  /** `habitRankings`. */
  function HabitRankings(users: seq<RankingEntry>): (r: seq<RankingEntry>)
    ensures multiset(r) == multiset(users)
    ensures forall i, j :: 0 <= i < j < |r| ==> r[i].streak >= r[j].streak
  {
    SortDescending(ByStreak, users)
  }

  /** `donationRankings`. */
  function DonationRankings(users: seq<RankingEntry>): (r: seq<RankingEntry>)
    ensures multiset(r) == multiset(users)
    ensures forall i, j :: 0 <= i < j < |r| ==> r[i].donations >= r[j].donations
  {
    SortDescending(ByDonations, users)
  }

  // ---------------------------------------------------------------------------
  // Rows

  datatype RankIcon = Trophy | Medal | Award | Position(text: string)

  /** `getRankIcon(index)`: trophy, medal and award for the podium, then `#n` with the
      one-based position. */
  function RankIconAt(index: nat): (r: RankIcon)
    ensures index == 0 <==> r == Trophy
    ensures index == 1 <==> r == Medal
    ensures index == 2 <==> r == Award
    ensures index >= 3 ==> r.Position? && r.text == "#" + Text.NatToString(index + 1)
  {
    if index == 0 then Trophy
    else if index == 1 then Medal
    else if index == 2 then Award
    else Position("#" + Text.NatToString(index + 1))
  }

  /** No two rows get the same badge. */
  lemma RankIconInjective(i: nat, j: nat)
    requires RankIconAt(i) == RankIconAt(j)
    ensures i == j
  {
    if i >= 3 && j >= 3 {
      assert ("#" + Text.NatToString(i + 1))[1..] == Text.NatToString(i + 1);
      assert ("#" + Text.NatToString(j + 1))[1..] == Text.NatToString(j + 1);
      Text.NatToStringInjective(i + 1, j + 1);
    }
  }

  /** A row offers a donation unless it is the current user's own. */
  predicate ShowsDonateButton(entry: RankingEntry, currentUser: Address) {
    entry.address != currentUser
  }

  /** The rows of a tab that carry a Donar button, in display order. */
  function DonateRows(rows: seq<RankingEntry>, currentUser: Address): (r: seq<RankingEntry>)
    ensures forall e :: e in r <==> e in rows && e.address != currentUser
    ensures |r| <= |rows|
  {
    if rows == [] then []
    else if ShowsDonateButton(rows[0], currentUser) then [rows[0]] + DonateRows(rows[1..], currentUser)
    else DonateRows(rows[1..], currentUser)
  }

  // ---------------------------------------------------------------------------
  // Dialog state

  /** The dialog's state. `rankingsOpen` is the `isOpen` flag the parent passes in and
      that `onClose` clears; the donation dialog stays up while `selected` is set. */
  datatype State = State(
    users: seq<RankingEntry>,
    selected: Option<RankingEntry>,
    amount: string,
    isDonating: bool,
    showSuccess: bool,
    rankingsOpen: bool)

  /** `loadRankings`: adopt the fetched list; a failed load keeps the previous one. */
  function LoadRankings(st: State, fetched: Result<seq<RankingEntry>>): (r: State)
    ensures fetched.Ok? ==> r.users == fetched.value
    ensures fetched.Err? ==> r.users == st.users
    ensures r.selected == st.selected && r.amount == st.amount
    ensures r.isDonating == st.isDonating && r.showSuccess == st.showSuccess && r.rankingsOpen == st.rankingsOpen
  {
    match fetched
    case Ok(users) => st.(users := users)
    case Err(_) => st
  }

  /** `handleDonateClick(user)`: select the row, which opens the donation dialog, and
      ask the parent to close the rankings dialog. */
  function SelectForDonation(st: State, user: RankingEntry): (r: State)
    ensures r.selected == Some(user) && !r.rankingsOpen
    ensures r.users == st.users && r.amount == st.amount
    ensures r.isDonating == st.isDonating && r.showSuccess == st.showSuccess
  {
    st.(selected := Some(user), rankingsOpen := false)
  }

  /** Only rows with a Donar button can be clicked, so the dialog never selects the current
      user, and a donation it sends goes to the clicked row's address. */
  lemma NoSelfDonation(
    st: State, rows: seq<RankingEntry>, currentUser: Address, user: RankingEntry,
    wallet: Wallet, toWei: string -> Result<nat>)
    requires user in DonateRows(rows, currentUser)
    ensures SelectForDonation(st, user).selected.value.address != currentUser
    ensures SendDonation(SelectForDonation(st, user), wallet, toWei)
         == BrujulaClient.Donate(wallet, user.address, toWei(st.amount))
  {
  }

  /** The Donar button of the donation dialog is disabled without an amount or while sending. */
  predicate DonateDisabled(st: State) {
    st.amount == "" || st.isDonating
  }

  /** The donation `handleDonate` sends for a selected row: to that row's address, with
      `toWei` as the amount conversion (`parseFloat`, then `parseEther`). */
  function SendDonation(st: State, wallet: Wallet, toWei: string -> Result<nat>): Result<Hash>
    requires st.selected.Some?
  {
    BrujulaClient.Donate(wallet, st.selected.value.address, toWei(st.amount))
  }

  /** `handleDonate`: nothing without a selected user or an amount; otherwise donate to the
      selected address. On success show the success dialog, reload the rankings (`reloaded`
      is the outcome of that load), clear the selection and reset the amount; on failure
      keep them. */
  function HandleDonate(
    st: State, wallet: Wallet, toWei: string -> Result<nat>, reloaded: Result<seq<RankingEntry>>): (r: State)
    ensures st.selected.None? || st.amount == "" ==> r == st
    ensures st.selected.Some? && st.amount != "" ==> !r.isDonating
    ensures st.selected.Some? && st.amount != "" && SendDonation(st, wallet, toWei).Ok? ==>
      r.selected.None? && r.amount == "" && r.showSuccess
    ensures st.selected.Some? && st.amount != "" && SendDonation(st, wallet, toWei).Ok? ==>
      r == st.(users := if reloaded.Ok? then reloaded.value else st.users,
               selected := None, amount := "", showSuccess := true, isDonating := false)
    ensures st.selected.Some? && st.amount != "" && SendDonation(st, wallet, toWei).Ok? ==>
      r.users == (if reloaded.Ok? then reloaded.value else st.users) && r.rankingsOpen == st.rankingsOpen
    ensures st.selected.Some? && st.amount != "" && SendDonation(st, wallet, toWei).Err? ==>
      r == st.(isDonating := false)
  {
    if st.selected.None? || st.amount == "" then st
    else
      var sending := st.(isDonating := true);
      match SendDonation(st, wallet, toWei)
      case Ok(_) =>
        var loaded := LoadRankings(sending.(showSuccess := true), reloaded);
        loaded.(selected := None, amount := "", isDonating := false)
      case Err(_) => sending.(isDonating := false)
  }

  /** When no donation is in flight, the disabled Donar button matches the handler's own
      guard: a click it blocks would change nothing, and a click it allows sends the
      donation to the selected row. */
  lemma DisabledMatchesGuard(
    st: State, wallet: Wallet, toWei: string -> Result<nat>, reloaded: Result<seq<RankingEntry>>)
    requires !st.isDonating && st.selected.Some?
    ensures DonateDisabled(st) ==> HandleDonate(st, wallet, toWei, reloaded) == st
    ensures !DonateDisabled(st) ==>
      (SendDonation(st, wallet, toWei).Ok? <==> HandleDonate(st, wallet, toWei, reloaded).selected.None?)
  {
  }
}
