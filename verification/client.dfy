/**
 The contract gateway: reads of one user's nickname, streak and donations,
 the streak-derived habit breakdown, the ranking aggregation over all
 registered users, and the three mutating calls (donate, register, check-in),
 each guarded by the presence of a wallet and wrapped in an error prefix.

 The RPC endpoint and the wallet are not run: a `Chain` carries the outcome of
 every view call per address, and a `Wallet` carries the outcome of account
 discovery, simulation and submission.
 */
module BrujulaClient {
  import opened Wrappers

  type Address = string
  type Hash = string

  // ---------------------------------------------------------------------------
  // Habit identifiers and contract codes

  /** The habit ids the UI selects, in the order the contract numbers them. */
  const KnownHabits: seq<string> := ["fitness", "mente", "nutricion", "saludDigital"]

  /** The code `registerHabits` sends for one habit id; unknown ids become 0. */
  function HabitCode(habit: string): (code: nat)
    ensures code <= 4
    ensures code == 0 <==> habit !in KnownHabits
    ensures code != 0 ==> KnownHabits[code - 1] == habit
  {
    match habit
    case "fitness" => 1
    case "mente" => 2
    case "nutricion" => 3
    case "saludDigital" => 4
    case _ => 0
  }

  /** The habit id a non-zero code stands for. */
  function HabitOfCode(code: nat): Option<string> {
    if 1 <= code <= 4 then Some(KnownHabits[code - 1]) else None
  }

  /** Codes name habits one-to-one: decoding the code of a known habit gives the habit back. */
  lemma HabitCodeRoundTrip(habit: string)
    ensures HabitOfCode(HabitCode(habit)) == (if habit in KnownHabits then Some(habit) else None)
  {
  }

  /** The argument of the `checkIn` call: one code per selected habit, in selection order. */
  function EncodeHabits(habits: seq<string>): (codes: seq<nat>)
    ensures |codes| == |habits|
    ensures forall i :: 0 <= i < |habits| ==> codes[i] <= 4
    ensures forall i :: 0 <= i < |habits| ==> (codes[i] == 0 <==> habits[i] !in KnownHabits)
    ensures forall i :: 0 <= i < |habits| && codes[i] != 0 ==> HabitOfCode(codes[i]) == Some(habits[i])
  {
    seq(|habits|, i requires 0 <= i < |habits| => HabitCode(habits[i]))
  }

  /** Two selections of known habits encode alike only when they are the same selection. */
  lemma EncodeHabitsInjective(a: seq<string>, b: seq<string>)
    requires forall i :: 0 <= i < |a| ==> a[i] in KnownHabits
    requires forall i :: 0 <= i < |b| ==> b[i] in KnownHabits
    requires EncodeHabits(a) == EncodeHabits(b)
    ensures a == b
  {
    assert |a| == |b|;
    forall i | 0 <= i < |a| ensures a[i] == b[i] {
      assert HabitOfCode(EncodeHabits(a)[i]) == Some(a[i]);
    }
  }

  // ---------------------------------------------------------------------------
  // Habit breakdown estimated from the streak

  /** Per-category check-in counts, in the key order of the object the client builds. */
  datatype Breakdown = Breakdown(fitness: nat, mente: nat, nutricion: nat, saludDigital: nat)

  const ZeroBreakdown: Breakdown := Breakdown(0, 0, 0, 0)

  function Total(b: Breakdown): nat {
    b.fitness + b.mente + b.nutricion + b.saludDigital
  }

  /** The heuristic for a positive streak: four habits a day spread 30/25/25/20 per cent,
      each share rounded down. The percentages are written as the integer fractions
      3/10, 1/4 and 2/10 of `4 * streak`. */
  function EstimateBreakdown(streak: nat): (b: Breakdown)
    ensures streak == 0 ==> b == ZeroBreakdown
    ensures b.mente == streak && b.nutricion == streak
    ensures 5 * b.fitness <= 6 * streak < 5 * b.fitness + 5
    ensures 5 * b.saludDigital <= 4 * streak < 5 * b.saludDigital + 5
  {
    if streak > 0 then
      var totalHabits := streak * 4;
      Breakdown(totalHabits * 3 / 10, totalHabits / 4, totalHabits / 4, totalHabits * 2 / 10)
    else
      ZeroBreakdown
  }

  /** The four counts fall one short of four per day unless the streak is a multiple of five. */
  lemma BreakdownTotal(streak: nat)
    ensures Total(EstimateBreakdown(streak)) == if streak % 5 == 0 then 4 * streak else 4 * streak - 1
    ensures Total(EstimateBreakdown(streak)) <= 4 * streak
  {
    var b := EstimateBreakdown(streak);
    var k, r := streak / 5, streak % 5;
    assert streak == 5 * k + r;
    assert b.fitness == 6 * k + (6 * r) / 5 by {
      assert 5 * (6 * k + (6 * r) / 5) <= 6 * streak < 5 * (6 * k + (6 * r) / 5) + 5;
    }
    assert b.saludDigital == 4 * k + (4 * r) / 5 by {
      assert 5 * (4 * k + (4 * r) / 5) <= 4 * streak < 5 * (4 * k + (4 * r) / 5) + 5;
    }
  }

  /** `getUserCheckIns`: the estimate from the streak read, or all zeros when that read fails. */
  function GetUserCheckIns(streakRead: Result<nat>): (b: Breakdown)
    ensures streakRead.Err? ==> b == ZeroBreakdown
    ensures streakRead.Ok? ==> b == EstimateBreakdown(streakRead.value)
    ensures Total(b) <= 4 * streakRead.GetOr(0)
    ensures streakRead.Ok? ==> b.mente == streakRead.value
  {
    match streakRead
    case Ok(streak) =>
      BreakdownTotal(streak);
      EstimateBreakdown(streak)
    case Err(_) => ZeroBreakdown
  }

  // ---------------------------------------------------------------------------
  // View calls

  /** The `users(address)` struct. */
  datatype UserRecord = UserRecord(nickname: string, registered: bool)

  /** The outcome of every view call the gateway makes. Donations are in wei.
      `getStreak` is called twice per address: once on its own (`streak`) and once more
      inside `getUserCheckIns` (`checkInsStreak`). The two are separate calls, so one can
      fail while the other succeeds, and a check-in can land between them. */
  datatype Chain = Chain(
    users: Address -> Result<UserRecord>,
    streak: Address -> Result<nat>,
    checkInsStreak: Address -> Result<nat>,
    donationsReceived: Address -> Result<nat>,
    allUsers: Result<seq<Address>>)

  /** `getUser`: the nickname, the first field of the user struct. */
  function GetUser(chain: Chain, address: Address): (r: Result<string>)
    ensures r.Ok? <==> chain.users(address).Ok?
    ensures r.Ok? ==> r.value == chain.users(address).value.nickname
    ensures r.Err? ==> r.message == chain.users(address).message
  {
    match chain.users(address)
    case Ok(user) => Ok(user.nickname)
    case Err(m) => Err(m)
  }

  /** One row of the rankings. */
  datatype RankingEntry = RankingEntry(
    address: Address, nickname: string, streak: nat, donations: nat, totalHabits: nat)

  const UnknownNickname: string := "Unknown"

  /** The entry `getAllUsers` builds for one address: each of the four reads falls
      back on its own default when it fails. */
  function LoadEntry(chain: Chain, address: Address): (e: RankingEntry)
    ensures e.address == address
    ensures e.nickname == (if chain.users(address).Ok? then chain.users(address).value.nickname else UnknownNickname)
    ensures e.streak == chain.streak(address).GetOr(0)
    ensures e.donations == chain.donationsReceived(address).GetOr(0)
    ensures e.totalHabits == Total(GetUserCheckIns(chain.checkInsStreak(address)))
    ensures e.totalHabits <= 4 * chain.checkInsStreak(address).GetOr(0)
  {
    var habits := GetUserCheckIns(chain.checkInsStreak(address));
    RankingEntry(
      address,
      GetUser(chain, address).GetOr(UnknownNickname),
      chain.streak(address).GetOr(0),
      chain.donationsReceived(address).GetOr(0),
      habits.fitness + habits.mente + habits.nutricion + habits.saludDigital)
  }

  /** An entry depends only on the reads for its own address. */
  lemma LoadEntryIsolated(c1: Chain, c2: Chain, address: Address)
    requires c1.users(address) == c2.users(address)
    requires c1.streak(address) == c2.streak(address)
    requires c1.checkInsStreak(address) == c2.checkInsStreak(address)
    requires c1.donationsReceived(address) == c2.donationsReceived(address)
    ensures LoadEntry(c1, address) == LoadEntry(c2, address)
  {
  }

  /** When both streak reads return the same value, the habit total of an entry is at most
      four per day of its streak; when the inner read fails alone, the total is 0 beside the
      streak the outer read loaded. */
  lemma EntryTotalAgainstStreak(chain: Chain, address: Address)
    ensures chain.checkInsStreak(address) == chain.streak(address) ==>
      LoadEntry(chain, address).totalHabits <= 4 * LoadEntry(chain, address).streak
    ensures chain.checkInsStreak(address).Err? ==> LoadEntry(chain, address).totalHabits == 0
  {
  }

  /** `getAllUsers`: one entry per registered address, in the contract's order; an
      empty or failing address list gives no entries and never an error. */
  method GetAllUsers(chain: Chain) returns (entries: seq<RankingEntry>)
    ensures chain.allUsers.Err? ==> entries == []
    ensures chain.allUsers.Ok? ==> |entries| == |chain.allUsers.value|
    ensures chain.allUsers.Ok? ==>
      forall i :: 0 <= i < |entries| ==> entries[i] == LoadEntry(chain, chain.allUsers.value[i])
  {
    if chain.allUsers.Err? {
      return [];
    }
    var addresses := chain.allUsers.value;
    if |addresses| == 0 {
      return [];
    }
    entries := [];
    var i := 0;
    while i < |addresses|
      invariant 0 <= i <= |addresses|
      invariant |entries| == i
      invariant forall k :: 0 <= k < i ==> entries[k] == LoadEntry(chain, addresses[k])
    {
      entries := entries + [LoadEntry(chain, addresses[i])];
      i := i + 1;
    }
  }

  /** The rankings carry the registered addresses themselves, in order, whatever fails per address. */
  method RankedAddresses(chain: Chain) returns (addresses: seq<Address>)
    ensures chain.allUsers.Ok? ==> addresses == chain.allUsers.value
    ensures chain.allUsers.Err? ==> addresses == []
  {
    var entries := GetAllUsers(chain);
    addresses := [];
    var i := 0;
    while i < |entries|
      invariant 0 <= i <= |entries|
      invariant |addresses| == i
      invariant forall k :: 0 <= k < i ==> addresses[k] == entries[k].address
    {
      addresses := addresses + [entries[i].address];
      i := i + 1;
    }
    if chain.allUsers.Ok? {
      assert forall k :: 0 <= k < |addresses| ==> addresses[k] == chain.allUsers.value[k];
    }
  }

  // ---------------------------------------------------------------------------
  // Mutating calls

  /** The contract functions the gateway submits. */
  datatype Call = DonateCall(recipient: Address, wei: nat) | RegisterCall(nickname: string) | CheckInCall(codes: seq<nat>)

  /** A prepared transaction: the call and the account sending it (`undefined` when the
      wallet lists no account). */
  datatype Request = Request(call: Call, account: Option<Address>)

  /** The injected wallet: whether `window.ethereum` exists, the accounts it lists,
      and the outcome of simulating and of submitting a request. */
  datatype Wallet = Wallet(
    present: bool,
    addresses: Result<seq<Address>>,
    simulate: Request -> Result<()>,
    write: Request -> Result<Hash>)

  const NoWalletMessage: string := "MetaMask no est\U{00E1} instalado"
  const DonationFailed: string := "Donation failed: "
  const RegistrationFailed: string := "Registration failed: "
  const HabitRegistrationFailed: string := "Habit registration failed: "

  /** The message a failed simulation or submission is rethrown with. */
  function Wrap(prefix: string, message: string): (r: string)
    ensures |r| == |prefix| + |message|
    ensures prefix <= r && r[|prefix|..] == message
  {
    prefix + message
  }

  /** The shared shape of the three mutating calls: fail with `NoWalletMessage` when
      there is no wallet; let an account-listing failure through unwrapped (it happens
      outside the `try`); otherwise simulate, then submit, and rethrow either failure
      with `prefix` in front of its message. */
  function Submit(wallet: Wallet, call: Call, prefix: string): (r: Result<Hash>)
    ensures !wallet.present ==> r == Err(NoWalletMessage)
    ensures wallet.present && wallet.addresses.Err? ==> r == Err(wallet.addresses.message)
    ensures r.Ok? ==> wallet.present && wallet.addresses.Ok?
    ensures wallet.present && wallet.addresses.Ok? ==>
      var req := Request(call, if |wallet.addresses.value| > 0 then Some(wallet.addresses.value[0]) else None);
      && (r.Ok? <==> wallet.simulate(req).Ok? && wallet.write(req).Ok?)
      && (r.Ok? ==> r.value == wallet.write(req).value)
      && (wallet.simulate(req).Err? ==> r == Err(Wrap(prefix, wallet.simulate(req).message)))
      && (wallet.simulate(req).Ok? && wallet.write(req).Err? ==> r == Err(Wrap(prefix, wallet.write(req).message)))
  {
    if !wallet.present then
      Err(NoWalletMessage)
    else
      match wallet.addresses
      case Err(m) => Err(m)
      case Ok(accounts) =>
        var account := if |accounts| > 0 then Some(accounts[0]) else None;
        var req := Request(call, account);
        match wallet.simulate(req)
        case Err(m) => Err(Wrap(prefix, m))
        case Ok(_) =>
          match wallet.write(req)
          case Err(m) => Err(Wrap(prefix, m))
          case Ok(hash) => Ok(hash)
  }

  /** Without a wallet the outcome does not depend on the chain at all: no contract
      interaction happens. */
  lemma NoWalletNoInteraction(w1: Wallet, w2: Wallet, c1: Call, c2: Call, p1: string, p2: string)
    requires !w1.present && !w2.present
    ensures Submit(w1, c1, p1) == Submit(w2, c2, p2) == Err(NoWalletMessage)
  {
  }

  /** `donate(address, amount)`: `wei` is the outcome of converting the amount with
      `parseEther`, which happens inside the `try`. */
  function Donate(wallet: Wallet, recipient: Address, wei: Result<nat>): (r: Result<Hash>)
    ensures !wallet.present ==> r == Err(NoWalletMessage)
    ensures wallet.present && wallet.addresses.Err? ==> r == Err(wallet.addresses.message)
    ensures wallet.present && wallet.addresses.Ok? && wei.Err? ==> r == Err(Wrap(DonationFailed, wei.message))
    ensures wei.Ok? ==> r == Submit(wallet, DonateCall(recipient, wei.value), DonationFailed)
  {
    if !wallet.present then Err(NoWalletMessage)
    else if wallet.addresses.Err? then Err(wallet.addresses.message)
    else
      match wei
      case Err(m) => Err(Wrap(DonationFailed, m))
      case Ok(v) => Submit(wallet, DonateCall(recipient, v), DonationFailed)
  }

  /** `registerUser(nickname)`. */
  function RegisterUser(wallet: Wallet, nickname: string): (r: Result<Hash>)
    ensures !wallet.present ==> r == Err(NoWalletMessage)
    ensures r.Ok? ==> wallet.present && wallet.addresses.Ok?
    ensures wallet.present && wallet.addresses.Ok? && r.Err? ==> RegistrationFailed <= r.message
    ensures r == Submit(wallet, RegisterCall(nickname), RegistrationFailed)
  {
    Submit(wallet, RegisterCall(nickname), RegistrationFailed)
  }

  /** `registerHabits(habits)`: one `checkIn` call carrying the encoded habits. */
  function RegisterHabits(wallet: Wallet, habits: seq<string>): (r: Result<Hash>)
    ensures !wallet.present ==> r == Err(NoWalletMessage)
    ensures r.Ok? ==> wallet.present && wallet.addresses.Ok?
    ensures wallet.present && wallet.addresses.Ok? && r.Err? ==> HabitRegistrationFailed <= r.message
    ensures r == Submit(wallet, CheckInCall(EncodeHabits(habits)), HabitRegistrationFailed)
  {
    Submit(wallet, CheckInCall(EncodeHabits(habits)), HabitRegistrationFailed)
  }
}
