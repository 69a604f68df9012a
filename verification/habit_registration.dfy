/**
 The habit registration dialog: choosing habits, registering them in one
 check-in, telling "already checked in today" apart from other failures, and
 the post it offers to share afterwards.
 */
module HabitRegistration {
  import opened Wrappers
  import opened BrujulaClient
  import Text
  import Membership
  import Share
  import UriComponent

  /** One habit card: the id sent to the gateway and the name shown. */
  datatype HabitType = HabitType(id: string, name: string)

  const HabitTypes: seq<HabitType> := [
    HabitType("fitness", "Fitness"),
    HabitType("mente", "Mind"),
    HabitType("nutricion", "Nutrition"),
    HabitType("saludDigital", "Digital Health")
  ]

  /** Every card the dialog offers is a habit the gateway can encode. */
  lemma HabitTypesEncodable()
    ensures forall i :: 0 <= i < |HabitTypes| ==> HabitCode(HabitTypes[i].id) != 0
    ensures forall i :: 0 <= i < |HabitTypes| ==> HabitTypes[i].id == KnownHabits[i]
  {
  }

  /** `habitTypes.find(h => h.id === id)?.name || id`. */
  function NameOf(id: string): (name: string)
    ensures HabitCode(id) != 0 ==> name == HabitTypes[HabitCode(id) - 1].name
    ensures HabitCode(id) == 0 ==> name == id
  {
    if id == "fitness" then "Fitness"
    else if id == "mente" then "Mind"
    else if id == "nutricion" then "Nutrition"
    else if id == "saludDigital" then "Digital Health"
    else id
  }

  function HabitNames(ids: seq<string>): (names: seq<string>)
    ensures |names| == |ids|
    ensures forall i :: 0 <= i < |ids| ==> names[i] == NameOf(ids[i])
  {
    seq(|ids|, i requires 0 <= i < |ids| => NameOf(ids[i]))
  }

  /** Distinct ids get distinct names as long as both are known habits or both are not
      (an unknown id spelled like a name, such as "Fitness", collides with that habit). */
  lemma NameOfInjective(a: string, b: string)
    requires a != b
    requires (a in KnownHabits) == (b in KnownHabits)
    ensures NameOf(a) != NameOf(b)
  {
  }

  const AlreadyCheckedInEs: string := "Ya hiciste check-in hoy"
  const AlreadyCheckedInEn: string := "already did check-in today"
  const SelectAtLeastOne: string := "Select at least one habit"
  const GenericFailure: string := "Error registering habits on blockchain. Please check your wallet and try again."

  /** The contract's refusal of a second check-in on the same day, in either language. */
  predicate IsAlreadyCheckedIn(message: string) {
    Text.Contains(message, AlreadyCheckedInEs) || Text.Contains(message, AlreadyCheckedInEn)
  }

  /** The prefix the gateway puts in front of a failure never creates or hides a
      refusal: the dialog classifies the wrapped message as it would the original. */
  lemma WrappedClassification(message: string)
    ensures IsAlreadyCheckedIn(Wrap(HabitRegistrationFailed, message)) <==> IsAlreadyCheckedIn(message)
  {
    WrappedContains(message, AlreadyCheckedInEs);
    WrappedContains(message, AlreadyCheckedInEn);
  }

  lemma WrappedContains(message: string, marker: string)
    requires marker == AlreadyCheckedInEs || marker == AlreadyCheckedInEn
    ensures Text.Contains(HabitRegistrationFailed + message, marker) <==> Text.Contains(message, marker)
  {
    if Text.Contains(message, marker) {
      ContainsAfter(HabitRegistrationFailed, message, marker);
    }
    if Text.Contains(HabitRegistrationFailed + message, marker) {
      var i :| Text.OccursAt(HabitRegistrationFailed + message, marker, i);
      if i < |HabitRegistrationFailed| {
        NotInPrefix(message, marker, i);
      } else {
        OccursAfter(HabitRegistrationFailed, message, marker, i);
      }
    }
  }

  /** Putting text in front keeps every occurrence. */
  lemma ContainsAfter(prefix: string, message: string, marker: string)
    requires Text.Contains(message, marker)
    ensures Text.Contains(prefix + message, marker)
  {
    var i :| Text.OccursAt(message, marker, i);
    assert (prefix + message)[i + |prefix|..i + |prefix| + |marker|] == message[i..i + |marker|];
    assert Text.OccursAt(prefix + message, marker, i + |prefix|);
  }

  /** An occurrence past the text in front is one in the message. */
  lemma OccursAfter(prefix: string, message: string, marker: string, i: int)
    requires Text.OccursAt(prefix + message, marker, i) && i >= |prefix|
    ensures Text.Contains(message, marker)
  {
    assert message[i - |prefix|..i - |prefix| + |marker|] == (prefix + message)[i..i + |marker|];
    assert Text.OccursAt(message, marker, i - |prefix|);
  }

  /** No refusal marker starts inside the prefix: one reaching the prefix's closing ": "
      would contain ':' or start with ' ', and before that there is no room for it. */
  lemma NotInPrefix(message: string, marker: string, i: int)
    requires marker == AlreadyCheckedInEs || marker == AlreadyCheckedInEn
    requires 0 <= i < |HabitRegistrationFailed|
    ensures !Text.OccursAt(HabitRegistrationFailed + message, marker, i)
  {
    MarkerShape(marker);
    var w := HabitRegistrationFailed + message;
    if i + |marker| <= |w| {
      var window := w[i..i + |marker|];
      if i == 26 {
        assert window[0] == ' ';
      } else if i + |marker| > 25 {
        assert window[25 - i] == ':';
      } else {
        assert window[0] == w[i] && window[1] == w[i + 1];
      }
    }
  }

  /** What the proof needs of the two markers. */
  lemma MarkerShape(marker: string)
    requires marker == AlreadyCheckedInEs || marker == AlreadyCheckedInEn
    ensures |marker| >= 23 && ':' !in marker
    ensures marker[0] == 'Y' || (marker[0] == 'a' && marker[1] == 'l')
  {
  }

  /** The dialog's state. `open` is the parent's flag, cleared through `onClose`;
      `reported` holds the names passed to `onHabitRegistered`. The streak the dialog
      shares is fixed at 1. */
  datatype State = State(
    open: bool,
    selected: seq<string>,
    isRegistering: bool,
    showSuccess: bool,
    showAlreadyRegistered: bool,
    alert: Option<string>,
    transactionHash: Hash,
    registeredNames: seq<string>,
    reported: Option<seq<string>>)

  const SharedStreak: nat := 1

  function Initial(): (st: State)
    ensures st.selected == [] && !st.isRegistering
  {
    State(false, [], false, false, false, None, "", [], None)
  }

  /** `toggleHabit`: select a habit that is not selected, deselect one that is. */
  function ToggleHabit(st: State, id: string): (r: State)
    ensures id in r.selected <==> id !in st.selected
    ensures forall x :: x != id ==> (x in r.selected <==> x in st.selected)
    ensures Membership.NoDuplicates(st.selected) ==> Membership.NoDuplicates(r.selected)
    ensures r == st.(selected := r.selected)
  {
    assert Membership.NoDuplicates(st.selected) ==> Membership.NoDuplicates(Membership.Toggle(st.selected, id)) by {
      if Membership.NoDuplicates(st.selected) {
        Membership.ToggleKeepsNoDuplicates(st.selected, id);
      }
    }
    st.(selected := Membership.Toggle(st.selected, id))
  }

  /** `handleRegisterHabits`: `result` is what `registerHabits` returned for the
      selection (consulted only when something is selected). */
  function HandleRegisterHabits(st: State, result: Result<Hash>): (r: State)
    ensures st.selected != [] ==> !r.isRegistering
    ensures st.selected == [] ==> r == st.(alert := Some(SelectAtLeastOne))
    ensures st.selected != [] && result.Ok? ==>
      && r.registeredNames == HabitNames(st.selected)
      && r.reported == Some(HabitNames(st.selected))
      && r.transactionHash == result.value
      && r.showSuccess && !r.open && r.selected == []
    ensures st.selected != [] && result.Ok? ==>
      r == st.(registeredNames := HabitNames(st.selected), transactionHash := result.value, open := false,
               showSuccess := true, reported := Some(HabitNames(st.selected)), selected := [], isRegistering := false)
    ensures st.selected != [] && result.Err? ==>
      && r.selected == st.selected
      && r.reported == st.reported
      && (IsAlreadyCheckedIn(result.message) ==> r == st.(showAlreadyRegistered := true, open := false, isRegistering := false))
      && (!IsAlreadyCheckedIn(result.message) ==> r == st.(alert := Some(GenericFailure), isRegistering := false))
  {
    if st.selected == [] then
      st.(alert := Some(SelectAtLeastOne))
    else
      match result
      case Ok(hash) =>
        var names := HabitNames(st.selected);
        st.(registeredNames := names, transactionHash := hash, open := false, showSuccess := true,
            reported := Some(names), selected := [], isRegistering := false)
      case Err(m) =>
        if IsAlreadyCheckedIn(m) then
          st.(open := false, showAlreadyRegistered := true, isRegistering := false)
        else
          st.(alert := Some(GenericFailure), isRegistering := false)
  }

  /** The whole click against a wallet: the selection is sent as one check-in, and a
      second check-in on the same day surfaces as the "already registered" dialog even
      after the gateway's prefix. */
  lemma RegisterAgainstWallet(st: State, wallet: Wallet, refusal: string)
    requires st.selected != [] && st.showAlreadyRegistered == false
    requires wallet.present && wallet.addresses.Ok?
    requires var req := Request(CheckInCall(EncodeHabits(st.selected)),
        if |wallet.addresses.value| > 0 then Some(wallet.addresses.value[0]) else None);
      wallet.simulate(req) == Err(refusal)
    ensures HandleRegisterHabits(st, RegisterHabits(wallet, st.selected)).showAlreadyRegistered
        <==> IsAlreadyCheckedIn(refusal)
  {
    WrappedClassification(refusal);
  }

  /** `handleShareOnX`: the intent URL it opens and the state after it closes the
      success dialog and the dialog itself. */
  function ShareOnX(st: State, address: Address): (r: (State, string))
    ensures r.0 == st.(showSuccess := false, open := false)
    ensures Share.IntentPrefix <= r.1
    ensures UriComponent.Decode(r.1[|Share.IntentPrefix|..]) == Some(Share.TweetText(SharedStreak, st.registeredNames, address))
  {
    (st.(showSuccess := false, open := false), Share.IntentUrl(SharedStreak, st.registeredNames, address))
  }
}
