/**
 The profile page of a connected wallet: loading its four reads together,
 deciding whether to show the registration form, registering a nickname,
 and what the header and the streak card show.
 */
module UserProfile {
  import opened Wrappers
  import opened BrujulaClient
  import Text
  import Language
  import AddressFormat

  /** `userData`: each field is `null` until a load succeeds. */
  datatype UserData = UserData(
    nickname: Option<string>, streak: Option<nat>, donations: Option<nat>, habits: Option<Breakdown>)

  const NoData: UserData := UserData(None, None, None, None)

  /** The page's state: the loaded data, the load error, the registration form and the
      habits last reported by the habit dialog (which the share dialog then shows). */
  datatype State = State(
    data: UserData,
    error: Option<string>,
    isLoading: bool,
    showRegistration: bool,
    nickname: string,
    isRegistering: bool,
    lastRegisteredHabits: seq<string>,
    shareOpen: bool)

  /** The key of the message shown when a load fails. */
  const LoadErrorKey: string := "couldNotLoadContractData"

  /** A nickname that means the address has not registered: empty, or the placeholder. */
  predicate NeedsRegistration(nickname: string) {
    nickname == "" || nickname == UnknownNickname
  }

  /** `loadUserData`. The four reads run together and the first one that fails fails the
      whole load; `getUserCheckIns` never fails, and its own streak read falls back on
      the zero breakdown. */
  function LoadUserData(st: State, chain: Chain, address: Address, table: Language.Table, lang: Language.Lang): (r: State)
    ensures !r.isLoading
    ensures r.nickname == st.nickname && r.lastRegisteredHabits == st.lastRegisteredHabits
    ensures r.error.None? <==> chain.users(address).Ok? && chain.streak(address).Ok? && chain.donationsReceived(address).Ok?
    ensures r.error.Some? ==>
      && r.data == NoData
      && r.error.value == Language.Translate(table, lang, LoadErrorKey)
      && r.showRegistration == st.showRegistration
    ensures r.error.None? ==>
      && r.data.nickname == Some(chain.users(address).value.nickname)
      && r.data.streak == Some(chain.streak(address).value)
      && r.data.donations == Some(chain.donationsReceived(address).value)
      && r.data.habits == Some(GetUserCheckIns(chain.checkInsStreak(address)))
      && (r.showRegistration <==> NeedsRegistration(chain.users(address).value.nickname))
    ensures r.error.Some? ==>
      r == st.(data := NoData, error := Some(Language.Translate(table, lang, LoadErrorKey)), isLoading := false)
    ensures r.error.None? ==>
      r == st.(data := UserData(Some(chain.users(address).value.nickname), Some(chain.streak(address).value),
                                Some(chain.donationsReceived(address).value), Some(GetUserCheckIns(chain.checkInsStreak(address)))),
               error := None,
               isLoading := false,
               showRegistration := NeedsRegistration(chain.users(address).value.nickname))
  {
    var nickname := GetUser(chain, address);
    var streak := chain.streak(address);
    var donations := chain.donationsReceived(address);
    var habits := GetUserCheckIns(chain.checkInsStreak(address));
    if nickname.Err? || streak.Err? || donations.Err? then
      st.(data := NoData, error := Some(Language.Translate(table, lang, LoadErrorKey)), isLoading := false)
    else
      st.(data := UserData(Some(nickname.value), Some(streak.value), Some(donations.value), Some(habits)),
          error := None,
          isLoading := false,
          showRegistration := NeedsRegistration(nickname.value))
  }

  /** After a successful load, whether the registration form shows depends on the
      nickname read alone, not on what the page showed before. */
  lemma RegistrationFormFollowsNickname(
    st1: State, st2: State, chain: Chain, address: Address, table: Language.Table, lang: Language.Lang)
    requires chain.users(address).Ok? && chain.streak(address).Ok? && chain.donationsReceived(address).Ok?
    ensures LoadUserData(st1, chain, address, table, lang).showRegistration
         == LoadUserData(st2, chain, address, table, lang).showRegistration
         == NeedsRegistration(chain.users(address).value.nickname)
  {
  }

  /** The Register button is disabled for a blank nickname and while registering. */
  predicate RegisterDisabled(st: State) {
    Text.Trim(st.nickname) == "" || st.isRegistering
  }

  /** What a click on Register did: the new state, the nickname sent, and whether a
      reload was scheduled (the page reloads its data three seconds after success). */
  datatype Registration = Registration(state: State, sent: Option<string>, reloadScheduled: bool)

  /** `handleRegisterUser`. */
  function HandleRegisterUser(st: State, wallet: Wallet): (o: Registration)
    ensures Text.Trim(st.nickname) == "" <==> o.sent.None?
    ensures o.sent.None? ==> o == Registration(st, None, false)
    ensures o.sent.Some? ==> o.sent.value == Text.Trim(st.nickname) && !o.state.isRegistering
    ensures o.sent.Some? ==>
      (o.reloadScheduled <==> RegisterUser(wallet, o.sent.value).Ok?)
    ensures o.sent.Some? && o.reloadScheduled ==>
      o.state == st.(nickname := "", isRegistering := false)
    ensures o.sent.Some? && !o.reloadScheduled ==>
      o.state == st.(showRegistration := false, isRegistering := false)
  {
    var trimmed := Text.Trim(st.nickname);
    if trimmed == "" then Registration(st, None, false)
    else if RegisterUser(wallet, trimmed).Ok? then
      Registration(st.(nickname := "", isRegistering := false), Some(trimmed), true)
    else
      Registration(st.(showRegistration := false, isRegistering := false), Some(trimmed), false)
  }

  /** A click the disabled button would not allow sends nothing. */
  lemma DisabledSendsNothing(st: State, wallet: Wallet)
    requires !st.isRegistering
    ensures RegisterDisabled(st) <==> HandleRegisterUser(st, wallet).sent.None?
  {
  }

  /** `handleHabitRegistered`: the habit dialog reports the names it registered; the page
      remembers them, opens the share dialog, and reloads. */
  function HabitRegistered(
    st: State, habits: Option<seq<string>>, chain: Chain, address: Address, table: Language.Table, lang: Language.Lang): (r: State)
    ensures habits.Some? ==> r.lastRegisteredHabits == habits.value && r.shareOpen
    ensures habits.None? ==> r.lastRegisteredHabits == st.lastRegisteredHabits && r.shareOpen == st.shareOpen
    ensures r.data == LoadUserData(st, chain, address, table, lang).data
    ensures var reload := LoadUserData(st, chain, address, table, lang);
      r.error == reload.error && r.showRegistration == reload.showRegistration && !r.isLoading
    ensures habits.Some? ==>
      r == LoadUserData(st, chain, address, table, lang).(lastRegisteredHabits := habits.value, shareOpen := true)
    ensures habits.None? ==> r == LoadUserData(st, chain, address, table, lang)
  {
    var reported := if habits.Some? then st.(lastRegisteredHabits := habits.value, shareOpen := true) else st;
    LoadUserData(reported, chain, address, table, lang)
  }

  /** The heading: the nickname when it is a non-empty string, otherwise the shortened
      address. */
  function DisplayName(data: UserData, address: Address): (r: string)
    ensures data.nickname.Some? && data.nickname.value != "" ==> r == data.nickname.value
    ensures data.nickname.None? || data.nickname.value == "" ==> r == AddressFormat.FormatAddress(address)
  {
    match data.nickname
    case Some(n) => if n != "" then n else AddressFormat.FormatAddress(address)
    case None => AddressFormat.FormatAddress(address)
  }

  /** The streak card: the streak, or 0 before any load has succeeded. */
  function DisplayStreak(data: UserData): (r: nat)
    ensures data.streak.Some? ==> r == data.streak.value
    ensures data.streak.None? ==> r == 0
  {
    data.streak.GetOr(0)
  }

  /** Which of its screens the page renders, tested in the page's order: the spinner
      while loading, the error panel for a non-empty error (`if (error)` is false for
      `""`), the registration form, and otherwise the profile with its heading and streak. */
  datatype Screen = Spinner | ErrorPanel(message: string) | RegistrationForm | Profile(name: string, streak: nat)

  function View(st: State, address: Address): (v: Screen)
    ensures st.isLoading <==> v == Spinner
    ensures v.ErrorPanel? <==> !st.isLoading && st.error.Some? && st.error.value != ""
    ensures v.ErrorPanel? ==> v.message == st.error.value
    ensures v.Profile? ==> v.name == DisplayName(st.data, address) && v.streak == DisplayStreak(st.data)
    ensures v.Profile? <==> !st.isLoading && (st.error.None? || st.error.value == "") && !st.showRegistration
  {
    if st.isLoading then Spinner
    else if st.error.Some? && st.error.value != "" then ErrorPanel(st.error.value)
    else if st.showRegistration then RegistrationForm
    else Profile(DisplayName(st.data, address), DisplayStreak(st.data))
  }

  /** A failed load always ends on the error panel with the translated message: `t` falls
      back on the key itself, which is not empty, so the reset data is never rendered. */
  lemma FailedLoadShowsError(st: State, chain: Chain, address: Address, table: Language.Table, lang: Language.Lang)
    requires chain.users(address).Err? || chain.streak(address).Err? || chain.donationsReceived(address).Err?
    ensures View(LoadUserData(st, chain, address, table, lang), address)
         == ErrorPanel(Language.Translate(table, lang, LoadErrorKey))
  {
    var r := LoadUserData(st, chain, address, table, lang);
    assert |LoadErrorKey| > 0;
    assert r.error.value != "";
  }

  /** A successful load of a registered address ends on the profile, headed by the nickname
      and showing the streak read. */
  lemma RegisteredLoadShowsProfile(st: State, chain: Chain, address: Address, table: Language.Table, lang: Language.Lang)
    requires chain.users(address).Ok? && chain.streak(address).Ok? && chain.donationsReceived(address).Ok?
    requires !NeedsRegistration(chain.users(address).value.nickname)
    ensures View(LoadUserData(st, chain, address, table, lang), address)
         == Profile(chain.users(address).value.nickname, chain.streak(address).value)
  {
  }
}
