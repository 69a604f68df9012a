/**
 The "donate to a specific wallet" dialog: the recipient and amount fields,
 the guards in front of the donation, the address format check, and the
 reset after a successful donation.
 */
module ManualDonation {
  import opened Wrappers
  import opened BrujulaClient
  import Text
  import AddressFormat

  /** What `Number.parseFloat` makes of the amount field. */
  datatype ParsedAmount = NotANumber | Number(value: real)

  const InitialAmount: string := "0.001"
  const InvalidAddressAlert: string := "Por favor ingresa una direcci\U{00F3}n de wallet v\U{00E1}lida"
  const DonationErrorAlert: string := "Error al enviar la donaci\U{00F3}n. Verifica tu wallet y conexi\U{00F3}n."

  datatype State = State(
    recipient: string,
    amount: string,
    isLoading: bool,
    showSuccess: bool,
    open: bool,
    alert: Option<string>)

  function Initial(open: bool): (st: State)
    ensures st.recipient == "" && st.amount == InitialAmount && !st.isLoading
  {
    State("", InitialAmount, false, false, open, None)
  }

  predicate IsHexDigit(c: char) {
    ('0' <= c <= '9') || ('a' <= c <= 'f') || ('A' <= c <= 'F')
  }

  function AllHex(s: string): (b: bool)
    ensures b <==> forall i :: 0 <= i < |s| ==> IsHexDigit(s[i])
    decreases |s|
  {
    |s| == 0 || (IsHexDigit(s[0]) && AllHex(s[1..]))
  }

  /** `/^0x[a-fA-F0-9]{40}$/.test(s)`: `0x` and exactly forty hex digits of either case,
      with no checksum on the letter case. */
  function IsWalletAddress(s: string): (b: bool)
    ensures b <==> |s| == 42 && s[0] == '0' && s[1] == 'x' && forall i :: 2 <= i < 42 ==> IsHexDigit(s[i])
  {
    if |s| == 42 && s[..2] == "0x" then
      assert forall i :: 2 <= i < 42 ==> s[i] == s[2..][i - 2];
      AllHex(s[2..])
    else
      false
  }

  /** The first guard: an empty recipient (after trimming), an empty amount, or an amount
      that parses to a number not above zero. A `NaN` amount passes this guard. */
  predicate Blocked(st: State, parse: string -> ParsedAmount) {
    || Text.Trim(st.recipient) == ""
    || st.amount == ""
    || (parse(st.amount).Number? && parse(st.amount).value <= 0.0)
  }

  /** The Donar button is disabled exactly when the first guard would stop the click, or
      while a donation is in flight. */
  predicate DonateDisabled(st: State, parse: string -> ParsedAmount) {
    Blocked(st, parse) || st.isLoading
  }

  /** What a click did: the new state and the arguments `donate` was called with, if any. */
  datatype Outcome = Outcome(state: State, sent: Option<(Address, string)>)

  /** `handleDonate`. `toWei` converts the amount string as the call chain does
      (`parseFloat`, `toString`, `parseEther`). */
  function HandleDonate(
    st: State, parse: string -> ParsedAmount, wallet: Wallet, toWei: string -> Result<nat>): (o: Outcome)
    ensures Blocked(st, parse) ==> o == Outcome(st, None)
    ensures !Blocked(st, parse) && !IsWalletAddress(Text.Trim(st.recipient)) ==>
      o == Outcome(st.(alert := Some(InvalidAddressAlert)), None)
    ensures o.sent.Some? ==>
      && !Blocked(st, parse)
      && o.sent.value == (Text.Trim(st.recipient), st.amount)
      && IsWalletAddress(o.sent.value.0)
      && !o.state.isLoading
    ensures o.sent.Some? && BrujulaClient.Donate(wallet, o.sent.value.0, toWei(st.amount)).Ok? ==>
      o.state.recipient == "" && o.state.amount == InitialAmount && o.state.showSuccess && !o.state.open
    ensures o.sent.Some? && BrujulaClient.Donate(wallet, o.sent.value.0, toWei(st.amount)).Ok? ==>
      o.state == st.(showSuccess := true, recipient := "", amount := InitialAmount, open := false, isLoading := false)
    ensures o.sent.Some? && BrujulaClient.Donate(wallet, o.sent.value.0, toWei(st.amount)).Err? ==>
      o.state == st.(alert := Some(DonationErrorAlert), isLoading := false)
    ensures !Blocked(st, parse) && IsWalletAddress(Text.Trim(st.recipient)) ==> o.sent.Some?
  {
    var recipient := Text.Trim(st.recipient);
    if Blocked(st, parse) then Outcome(st, None)
    else if !IsWalletAddress(recipient) then Outcome(st.(alert := Some(InvalidAddressAlert)), None)
    else Sent(st, recipient, BrujulaClient.Donate(wallet, recipient, toWei(st.amount)))
  }

  /** The state after `donate` returned `result` for `recipient`. */
  function Sent(st: State, recipient: Address, result: Result<Hash>): (o: Outcome)
    ensures o.sent == Some((recipient, st.amount)) && !o.state.isLoading
    ensures result.Ok? ==>
      o.state.recipient == "" && o.state.amount == InitialAmount && o.state.showSuccess && !o.state.open
    ensures result.Ok? ==> o.state.alert == st.alert
    ensures result.Ok? ==>
      o.state == st.(showSuccess := true, recipient := "", amount := InitialAmount, open := false, isLoading := false)
    ensures result.Err? ==> o.state == st.(alert := Some(DonationErrorAlert), isLoading := false)
  {
    if result.Ok? then
      Outcome(st.(showSuccess := true, recipient := "", amount := InitialAmount, open := false, isLoading := false),
        Some((recipient, st.amount)))
    else
      Outcome(st.(alert := Some(DonationErrorAlert), isLoading := false), Some((recipient, st.amount)))
  }

  /** A donation is only ever sent to a well-formed address, and never with surrounding
      white space. */
  lemma SentRecipientIsTrimmedAddress(
    st: State, parse: string -> ParsedAmount, wallet: Wallet, toWei: string -> Result<nat>)
    ensures var o := HandleDonate(st, parse, wallet, toWei);
      o.sent.Some? ==> |o.sent.value.0| == 42 && Text.Trim(o.sent.value.0) == o.sent.value.0
  {
    var o := HandleDonate(st, parse, wallet, toWei);
    if o.sent.Some? {
      Text.TrimIdempotent(st.recipient);
    }
  }

  /** The disabled button and the first guard agree: a click the button would let through
      either sends a donation or raises the address alert, and a disabled button stands for
      a click that does nothing. */
  lemma DisabledMatchesGuard(
    st: State, parse: string -> ParsedAmount, wallet: Wallet, toWei: string -> Result<nat>)
    requires !st.isLoading
    ensures DonateDisabled(st, parse) ==> HandleDonate(st, parse, wallet, toWei) == Outcome(st, None)
    ensures !DonateDisabled(st, parse) ==>
      var o := HandleDonate(st, parse, wallet, toWei);
      o.sent.Some? || o.state.alert == Some(InvalidAddressAlert)
  {
  }

  /** The "Donando a:" preview under the recipient field. */
  function Preview(st: State): (r: Option<string>)
    ensures r.None? <==> Text.Trim(st.recipient) == ""
    ensures r.Some? ==> r.value == AddressFormat.FormatAddressGuarded(Text.Trim(st.recipient))
  {
    var trimmed := Text.Trim(st.recipient);
    if trimmed == "" then None else Some(AddressFormat.FormatAddressGuarded(trimmed))
  }
}
