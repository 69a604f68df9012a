# Brújula front end — a verified model of its decision rules

Brújula is a habit-tracking dApp. A user registers a nickname on a contract,
checks in the habits they kept each day, builds a streak, and can receive
donations in ETH from other users. This front end (Next.js/React plus a viem
contract client) is mostly rendering and wallet plumbing. The rules it does
hold are small and pure, and this project states and proves them in Dafny:

- the contract client (`lib/brujulaClient.js`), in module `BrujulaClient`:
  - the habit-id → contract-code encoder;
  - the streak-derived habit breakdown;
  - the `getAllUsers` aggregation, with a separate default for each failing read;
  - the no-wallet guard and error prefixes of `donate`, `registerUser` and `registerHabits`.
- the rankings dialog (`Rankings`):
  - stable non-increasing sorts of a copy of the user list;
  - rank badges;
  - the donate flow;
- the manual donation dialog (`ManualDonation`):
  - the guards;
  - the `0x` + 40 hex digits address check;
  - the reset after success;
  - the preview.
- the profile page (`UserProfile`):
  - registration detection and the failed-load reset;
  - nickname registration;
  - display fallbacks;
- the habit registration dialog (`HabitRegistration`):
  - the habit table and selection toggling;
  - the outcome classification of a check-in;
  - the share intent;
- the educational resources page:
  - `EducationalResources`: section and checklist toggles, persistence, markers and styles;
  - `ResourceCatalogue`: the static catalogue of 68 items;
  - `CatalogueIds`: the catalogue's id columns and the facts about distinct and disjoint id lists;
  - `CheckedJson`: `JSON.stringify`/`JSON.parse` of the checklist, which is a flat object of booleans;
- the language provider and toggle (`Language`, `LanguageToggle`);
- the share text and its intent URL (`Share`, `UriComponent` for `encodeURIComponent`/`decodeURIComponent`);
- the habit chart (`HabitChart`);
- shared helpers:
  - `Text`: JavaScript `trim`, `includes`, `slice`, `join`, `split`, `toUpperCase` and number printing;
  - `AddressFormat`: the three `formatAddress` copies;
  - `Membership`: the toggle-membership list;
  - `Wrappers`: `Option`/`Result`.

Everything that reaches outside the page becomes a parameter:
- Contract reads are a `Chain` value: one `Result` per view call and address. The streak is read twice per address, once directly and once inside `getUserCheckIns`, and the two reads are separate fields (`streak`, `checkInsStreak`) because the calls are separate and either can fail alone.
- The injected wallet is a `Wallet` value:
  - whether it is present;
  - the accounts it lists;
  - the outcome of simulating and of submitting a request.
- `localStorage` is a `map<string, string>`.
- The translation table is a map.
- `Number.parseFloat` and the ETH→wei conversion are function parameters.

Donations are whole numbers of wei, and streaks are natural numbers.

The breakdown that `getUserCheckIns` derives from a streak `s > 0` is:
- fitness ⌊6s/5⌋;
- mind s;
- nutrition s;
- digital health ⌊4s/5⌋.

These are the exact values of the code's `Math.floor(4s × 0.3)`, `4s × 0.25` and `4s × 0.2`. The code comment at `lib/brujulaClient.js:106` reads the total as four habits per day of streak, but the floors lose one habit whenever `s` is not a multiple of 5, and the model follows the code. `BrujulaClient.BreakdownTotal` proves the total is `4s` only when `s` is a multiple of 5 and `4s − 1` otherwise. For example, a one-day streak gives 1, 1, 1, 0.

## Model

| member | source | states |
|---|---|---|
| BrujulaClient.HabitCode | lib/brujulaClient.js:292-305 | codes are 1–4 for `fitness`, `mente`, `nutricion`, `saludDigital` in that order, and 0 exactly for any other id |
| BrujulaClient.HabitCodeRoundTrip | lib/brujulaClient.js:292-305 | decoding a code gives back the known habit it encodes, and unknown ids decode to nothing |
| BrujulaClient.EncodeHabits | lib/brujulaClient.js:292-305 | one code per habit, same length and order, each code 0 exactly for an unknown id and decoding back to its habit otherwise |
| BrujulaClient.EncodeHabitsInjective | lib/brujulaClient.js:292-305 | two selections of known habits that encode alike are the same selection |
| BrujulaClient.EstimateBreakdown | lib/brujulaClient.js:104-120 | all zeros for a zero streak; mind = nutrition = s; fitness and digital health are ⌊6s/5⌋ and ⌊4s/5⌋, stated by their bounds |
| BrujulaClient.BreakdownTotal | lib/brujulaClient.js:106-112 | the four counts total 4s when 5 divides s and 4s − 1 otherwise, never more than 4s |
| BrujulaClient.GetUserCheckIns | lib/brujulaClient.js:97-130 | a failed streak read gives the all-zero breakdown instead of an error; a successful one gives exactly the streak-derived breakdown of the read streak; the total never exceeds four per streak day |
| BrujulaClient.GetUser | lib/brujulaClient.js:67-75 | the nickname is the first field of the user struct, and a failed read fails with the same message |
| BrujulaClient.LoadEntry | lib/brujulaClient.js:222-254 | an entry carries its own address; each failed read falls back on its own to `"Unknown"`, 0 or 0; `totalHabits` is the total of the breakdown from the second streak read, the one inside `getUserCheckIns`, and never exceeds four per day of that read |
| BrujulaClient.EntryTotalAgainstStreak | lib/brujulaClient.js:226-242 | when both streak reads agree, the entry's habit total is at most four times its shown streak; when the inner read fails, the total is 0 whatever the shown streak |
| BrujulaClient.LoadEntryIsolated | lib/brujulaClient.js:226-243 | an entry depends only on the reads for its own address |
| BrujulaClient.GetAllUsers | lib/brujulaClient.js:202-277 | a failing address-list read gives no entries and no error; otherwise one entry per address, in the contract's order |
| BrujulaClient.RankedAddresses | lib/brujulaClient.js:221-271 | the rankings list exactly the registered addresses, in order, whatever fails per address |
| BrujulaClient.Wrap | lib/brujulaClient.js:158-161 | the rethrown message is the prefix followed by the original message, unchanged |
| BrujulaClient.Submit | lib/brujulaClient.js:132-162 | no wallet fails with the MetaMask message; an account-listing failure passes through unwrapped; a simulation or submission failure is rethrown with the prefix; success returns the submitted hash |
| BrujulaClient.NoWalletNoInteraction | lib/brujulaClient.js:133-135 | without a wallet, every call fails in the same way, whatever the call and the wallet's other behaviour |
| BrujulaClient.Donate | lib/brujulaClient.js:132-162 | the no-wallet guard; an account-listing failure passes through with its own message; an amount-conversion failure is wrapped as `Donation failed: `; otherwise a donate call to the recipient with the converted value |
| BrujulaClient.RegisterUser | lib/brujulaClient.js:164-200 | the no-wallet guard; with a wallet, a `registerUser` call carrying the nickname goes through the same account, simulate and submit steps as a donation, every failure starting with `Registration failed: ` |
| BrujulaClient.RegisterHabits | lib/brujulaClient.js:279-334 | the no-wallet guard; one check-in call carrying the encoded habits; with a wallet, every failure starts with `Habit registration failed: ` |
| Membership.Remove | components/habit-registration-modal.tsx:69 | `filter(x => x !== id)` keeps exactly the other elements and nothing else |
| Membership.RemoveUnique | components/educational-resources.tsx:49 | on a duplicate-free list, removing an element splices out its one occurrence |
| Membership.Toggle | components/habit-registration-modal.tsx:68-70 | the toggled element's membership flips; every other element's is unchanged; an absent element is appended at the end |
| Membership.ToggleKeepsNoDuplicates | components/educational-resources.tsx:47-51 | a toggle never introduces a duplicate |
| Membership.ToggleTwice | components/habit-registration-modal.tsx:68-70 | toggling the same element twice restores every element's membership |
| Membership.ToggleTwiceAbsent | components/habit-registration-modal.tsx:68-70 | adding and then removing an absent element gives the duplicate-free list back exactly |
| Membership.ToggleAllNoDuplicates | components/habit-registration-modal.tsx:68-70 | any run of toggles from a duplicate-free list, the empty one included, stays duplicate-free |
| Membership.ToggleAllParity | components/educational-resources.tsx:47-51 | after a run of toggles, an element is present exactly when its starting presence and the parity of its toggle count disagree |
| Rankings.Insert | components/rankings-modal.tsx:94 | inserting adds exactly one entry and keeps every other entry |
| Rankings.InsertSorted | components/rankings-modal.tsx:94 | insertion keeps a non-increasing list non-increasing |
| Rankings.SortDescending | components/rankings-modal.tsx:94-95 | the sorted copy is a permutation of the input, in non-increasing key order |
| Rankings.InsertWithKey | components/rankings-modal.tsx:94 | insertion puts the new entry in front of the entries with an equal key |
| Rankings.SortStable | components/rankings-modal.tsx:94-95 | entries with equal keys keep their input order, as the stable `Array.prototype.sort` does |
| Rankings.HabitRankings | components/rankings-modal.tsx:94 | a permutation of the users, by non-increasing streak |
| Rankings.DonationRankings | components/rankings-modal.tsx:95 | a permutation of the users, by non-increasing donations received |
| Rankings.RankIconAt | components/rankings-modal.tsx:87-92 | trophy, medal and award exactly for positions 0, 1, 2; `#` and the one-based position from 3 on |
| Rankings.RankIconInjective | components/rankings-modal.tsx:87-92 | no two rows get the same badge |
| Rankings.LoadRankings | components/rankings-modal.tsx:37-49 | a successful load adopts the fetched list; a failed one keeps the previous list |
| Rankings.ShowsDonateButton | components/rankings-modal.tsx:142 | a row offers a donate button exactly when its address is not the connected user's |
| Rankings.DonateRows | components/rankings-modal.tsx:142 | the rows with a donate button, in either tab, are exactly the listed rows of other users |
| Rankings.SelectForDonation | components/rankings-modal.tsx:78-81 | clicking a row's donate button selects that row and closes the rankings dialog; the list, the amount, the sending flag and the success dialog are unchanged |
| Rankings.NoSelfDonation | components/rankings-modal.tsx:78-81 | a donation started from a row's button never goes to the connected user, and goes to that row's address with the typed amount |
| Rankings.DonateDisabled | components/rankings-modal.tsx:241 | the Donar button is disabled for an empty amount or while a donation is in flight |
| Rankings.DisabledMatchesGuard | components/rankings-modal.tsx:57-76 | with a row selected and nothing in flight, a click the disabled button would stop does nothing, and an allowed click clears the selection exactly when the donation succeeds |
| Rankings.HandleDonate | components/rankings-modal.tsx:57-76 | no selection or an empty amount does nothing; success clears the selection, resets the amount to `""`, shows the success dialog and adopts the reloaded list, keeping the old list when the reload fails, and changes nothing else; failure only ends the sending flag |
| AddressFormat.FormatAddress | components/rankings-modal.tsx:83-85 | six leading characters, `...`, four trailing characters: 13 characters for any input of length six or more |
| AddressFormat.FormatAddressGuarded | components/manual-donation-modal.tsx:51-54 | inputs shorter than ten characters are returned as typed; longer ones are shortened to 13 characters |
| AddressFormat.GuardedAgreesOnLongInputs | components/manual-donation-modal.tsx:51-54 | the guarded variant equals the plain `formatAddress` exactly on inputs of length ten or more |
| ManualDonation.Initial | components/manual-donation-modal.tsx:19-22 | the dialog opens with an empty recipient and the amount `0.001` |
| ManualDonation.AllHex | components/manual-donation-modal.tsx:28 | true exactly when every character is a hex digit of either case |
| ManualDonation.IsWalletAddress | components/manual-donation-modal.tsx:28 | accepted exactly when the string is `0x` followed by 40 hex digits of either case, 42 characters in all |
| ManualDonation.Blocked | components/manual-donation-modal.tsx:25 | the first guard stops a click for a blank trimmed recipient, an empty amount, or an amount that parses to a number not above zero |
| ManualDonation.DonateDisabled | components/manual-donation-modal.tsx:111 | the Donar button is disabled exactly when the first guard would stop a click, or while a donation is in flight |
| ManualDonation.HandleDonate | components/manual-donation-modal.tsx:24-49 | the first guard makes the click a no-op; a malformed address only raises the alert; otherwise `donate` gets the trimmed recipient; success shows the success dialog, resets the recipient to `""` and the amount to `0.001`, closes the dialog and changes nothing else, no alert included; failure only raises the error alert |
| ManualDonation.Sent | components/manual-donation-modal.tsx:36-48 | success resets the recipient to `""` and the amount to `0.001`, shows the success dialog and closes this one, raising no alert and changing nothing else; failure only raises the error alert; loading ends either way |
| ManualDonation.SentRecipientIsTrimmedAddress | components/manual-donation-modal.tsx:28-36 | a donation is only sent to a 42-character address without surrounding white space |
| ManualDonation.DisabledMatchesGuard | components/manual-donation-modal.tsx:111 | a click the disabled button would stop does nothing, and a click it allows either sends or raises the address alert |
| ManualDonation.Preview | components/manual-donation-modal.tsx:98-101 | a preview shows exactly when the trimmed recipient is not empty, shortened by the guarded `formatAddress` |
| UserProfile.NeedsRegistration | components/user-profile-page.tsx:66 | a nickname means "not registered" exactly when it is empty or `"Unknown"` |
| UserProfile.LoadUserData | components/user-profile-page.tsx:52-93 | the load fails exactly when the nickname, streak or donations read fails; then all four fields become null and the translated error is set; otherwise the fields hold the reads, the habits coming from the second streak read inside `getUserCheckIns`, and the registration form shows exactly for an empty or `"Unknown"` nickname; loading ends, and the nickname field, the registering flag, the share dialog and the remembered habits are untouched on both paths |
| UserProfile.RegistrationFormFollowsNickname | components/user-profile-page.tsx:66-71 | after a successful load, the form's visibility depends on the nickname read alone |
| UserProfile.HandleRegisterUser | components/user-profile-page.tsx:95-115 | a blank nickname sends nothing; otherwise the trimmed nickname is sent; success clears the field and schedules a reload; failure hides the form; registering ends either way |
| UserProfile.RegisterDisabled | components/user-profile-page.tsx:231 | the Register button is disabled for a blank trimmed nickname or while registering |
| UserProfile.DisabledSendsNothing | components/user-profile-page.tsx:231 | outside a registration in flight, the button is disabled exactly when a click would send nothing |
| UserProfile.HabitRegistered | components/user-profile-page.tsx:133-139 | reported habit names are remembered and open the share dialog; the page is reloaded either way, with the same data, error, registration form and end of loading as a plain reload; remembering and reloading do not interfere |
| UserProfile.DisplayName | components/user-profile-page.tsx:283 | the nickname when it is non-empty, otherwise the shortened address |
| UserProfile.DisplayStreak | components/user-profile-page.tsx:299 | the streak when it is loaded, otherwise 0 |
| UserProfile.View | components/user-profile-page.tsx:152-299 | the spinner exactly while loading; otherwise the error panel exactly for a non-empty error, as `if (error)` tests; otherwise the registration form or, when it is hidden, the profile headed by the display name with the display streak |
| UserProfile.FailedLoadShowsError | components/user-profile-page.tsx:159-181 | after any failed read the page renders the error panel with the translated message, never the reset data, because `t` falls back on its non-empty key |
| UserProfile.RegisteredLoadShowsProfile | components/user-profile-page.tsx:283-299 | after a successful load of a registered address the profile is headed by the nickname read and shows the streak read |
| HabitRegistration.HabitTypesEncodable | components/habit-registration-modal.tsx:19-52 | every habit the dialog offers is one the client encodes to a non-zero code, in the contract's order |
| HabitRegistration.NameOf | components/habit-registration-modal.tsx:85-88 | a known id maps to its display name from the habit table; any other id maps to itself |
| HabitRegistration.HabitNames | components/habit-registration-modal.tsx:85-88 | one name per selected id, same length and order |
| HabitRegistration.NameOfInjective | components/habit-registration-modal.tsx:19-52 | distinct ids that are both known, or both unknown, get distinct names |
| HabitRegistration.IsAlreadyCheckedIn | components/habit-registration-modal.tsx:100 | a failure is the "already checked in" refusal exactly when its message contains the Spanish or the English marker |
| HabitRegistration.WrappedClassification | components/habit-registration-modal.tsx:100 | the `Habit registration failed: ` prefix neither creates nor hides an "already checked in" marker |
| HabitRegistration.ToggleHabit | components/habit-registration-modal.tsx:68-70 | the clicked habit's selection flips, the others' do not, and no duplicate is introduced |
| HabitRegistration.Initial | components/habit-registration-modal.tsx:60-66 | the dialog starts with nothing selected and no registration in flight |
| HabitRegistration.HandleRegisterHabits | components/habit-registration-modal.tsx:72-109 | an empty selection only alerts; success records the mapped names and the hash, reports them, clears the selection, closes the dialog and shows the success dialog, changing nothing else (no alert, no "already registered" dialog); an "already checked in" failure shows that dialog; any other failure alerts; registering ends on every path |
| HabitRegistration.RegisterAgainstWallet | components/habit-registration-modal.tsx:82-105 | against the client, a refused check-in shows the "already registered" dialog exactly when the refusal mentions either marker |
| HabitRegistration.ShareOnX | components/habit-registration-modal.tsx:120-134 | sharing closes both dialogs and opens an intent URL that decodes to the post text for the registered names |
| Share.Header | components/share-on-x-modal.tsx:21 | the header is a single line |
| Share.HabitLines | components/share-on-x-modal.tsx:19 | one `✔️ ` line per habit, in input order |
| Share.TweetText | components/share-on-x-modal.tsx:21-27 | the post starts with the streak header, contains the donation line for the address and ends with the site line |
| Share.TweetLines | components/share-on-x-modal.tsx:19-27 | the post's lines are the header, a blank line, the habit lines (one blank line when there are none), a blank line, the donation line, a blank line and the site line |
| Share.IntentUrl | components/share-on-x-modal.tsx:29 | the URL is the intent prefix followed by only unreserved characters and percent escapes, and decoding the query gives the post text back exactly |
| UriComponent.Utf8RoundTrip | components/share-on-x-modal.tsx:29 | decoding the UTF-8 bytes of any character gives it back, and the lead byte announces the sequence length |
| UriComponent.Encode | components/share-on-x-modal.tsx:29 | the encoding uses only unreserved characters and `%`, and keeps every unreserved input character |
| UriComponent.RoundTrip | components/share-on-x-modal.tsx:29 | `decodeURIComponent(encodeURIComponent(s))` is `s` for every string |
| UriComponent.EncodeInjective | components/share-on-x-modal.tsx:29 | different texts give different URLs |
| Text.Trim | components/manual-donation-modal.tsx:25 | `trim` removes exactly the leading and trailing white space; the result is empty exactly for an all-white-space input |
| Text.TrimIdempotent | components/user-profile-page.tsx:96-101 | trimming a trimmed string changes nothing |
| Text.Contains | components/habit-registration-modal.tsx:100 | `includes` holds exactly when the pattern occurs at some offset |
| Text.SplitJoin | components/share-on-x-modal.tsx:19 | joining lines with a separator none contains, then splitting, gives the lines back |
| Text.NatToString | components/share-on-x-modal.tsx:21 | a number prints as decimal digits without a leading zero |
| Text.DecimalRoundTrip | components/share-on-x-modal.tsx:21 | reading the printed digits gives the number back |
| Language.ParseLang | hooks/use-language.tsx:29 | only `"es"` and `"en"` name a language |
| Language.Load | hooks/use-language.tsx:25-35 | a stored `"es"` or `"en"` is adopted and storage is left alone; anything else, missing included, gives English and writes `"en"` back; no other key changes |
| Language.MountLeavesInitialOnlyForSpanish | hooks/use-language.tsx:25-35 | the first render shows English, and the mount effect moves away from it exactly when storage holds `"es"` |
| Language.LoadIdempotent | hooks/use-language.tsx:27-35 | loading from the storage a load left behind gives the same provider |
| Language.SetLanguage | hooks/use-language.tsx:37-40 | state and stored value both become the chosen language; no other key changes |
| Language.SetThenLoad | hooks/use-language.tsx:28-40 | the language set is the one the next load adopts, with storage unchanged |
| Language.Translate | hooks/use-language.tsx:42-44 | the current language's entry when present and non-empty, otherwise the key itself |
| LanguageToggle.Toggle | components/language-toggle.tsx:13 | Spanish becomes English and English becomes Spanish |
| LanguageToggle.ToggleTwice | components/language-toggle.tsx:13 | two toggles restore the language |
| LanguageToggle.Click | components/language-toggle.tsx:12-14 | a click changes the language, and the next load keeps the new one |
| LanguageToggle.Label | components/language-toggle.tsx:28 | the label is the language code in capitals: `ES` or `EN` |
| LanguageToggle.Render | components/language-toggle.tsx:16-29 | nothing renders on the landing page `/`; the labelled button renders everywhere else |
| LanguageToggle.ClickChangesLabel | components/language-toggle.tsx:12-28 | every click changes the label shown |
| HabitChart.ChartData | components/habit-chart.tsx:28-33 | one slice per breakdown key, in key order, carrying that key's value, label and colour |
| HabitChart.ChartTotal | components/habit-chart.tsx:35 | the total is the sum of the four counts |
| HabitChart.EmptyStateIffZero | components/habit-chart.tsx:37-39 | the empty state shows exactly for the all-zero breakdown |
| HabitChart.EmptyStateIffNoStreak | components/habit-chart.tsx:37-39 | with the streak-derived breakdown, the empty state shows exactly when the streak is zero or unreadable |
| HabitChart.TooltipUnit | components/habit-chart.tsx:46 | `día` exactly for one, `días` for every other count |
| HabitChart.TooltipText | components/habit-chart.tsx:46 | the tooltip is the slice name, `: `, its count, a space, the unit and ` cumpliendo`, each at its place |
| HabitChart.TooltipReadBack | components/habit-chart.tsx:46 | the digits between the name and the ending read back as the slice's count, and the ending says `día` exactly for a count of one |
| CheckedJson.Lookup | components/educational-resources.tsx:56 | `prev[id]`: missing exactly when no entry has the key, otherwise an entry's value |
| CheckedJson.Set | components/educational-resources.tsx:54-57 | `{...prev, [id]: v}` keeps the length when the key exists and appends the entry at the end otherwise |
| CheckedJson.SetLookup | components/educational-resources.tsx:54-57 | the assigned key reads as the assigned value |
| CheckedJson.SetOther | components/educational-resources.tsx:54-57 | every other key reads as before |
| CheckedJson.SetKeepsDistinct | components/educational-resources.tsx:54-57 | assignment never duplicates a key |
| CheckedJson.Stringify | components/educational-resources.tsx:44 | the text is braced, and it is `{}` exactly for the empty object |
| CheckedJson.Parse | components/educational-resources.tsx:35 | a parsed object never has a repeated key |
| CheckedJson.SurrogatePair | components/educational-resources.tsx:35 | a high-surrogate escape followed by a low-surrogate escape reads as one character above U+FFFF, consuming both escapes |
| CheckedJson.PairEscapeRoundTrip | components/educational-resources.tsx:35 | the escaped surrogate pair of any character above U+FFFF reads back as that character |
| CheckedJson.GrinningFacePair | components/educational-resources.tsx:35 | the escapes `\ud83d\ude00` read as the one character U+1F600 |
| CheckedJson.EscapeRoundTrip | components/educational-resources.tsx:35-44 | the JSON string escaping of a key reads back as the key |
| CheckedJson.StringifyRoundTrip | components/educational-resources.tsx:35-44 | `JSON.parse(JSON.stringify(m))` gives back `m`, including the order of its keys |
| ResourceCatalogue.CatalogueIdsDistinct | components/educational-resources.tsx:60-375 | the 68 item ids of the catalogue are pairwise distinct across all four categories |
| ResourceCatalogue.CatalogueHeaders | components/educational-resources.tsx:60-375 | every header item is a reference item, and each category opens with a header |
| EducationalResources.ToggleSection | components/educational-resources.tsx:47-51 | the clicked category's expansion flips, the others' do not, and no duplicate is introduced |
| EducationalResources.ToggleCheckItem | components/educational-resources.tsx:53-58 | the clicked item's checked value becomes the negation of what it read as, with missing read as unchecked; every other item reads as before; keys stay distinct |
| EducationalResources.ToggleCheckItemTwice | components/educational-resources.tsx:53-58 | two clicks restore whether every item reads as checked |
| EducationalResources.Save | components/educational-resources.tsx:43-45 | the serialised checklist is written under `educationalResources`, and no other key changes |
| EducationalResources.LoadChecked | components/educational-resources.tsx:31-40 | a missing or empty value loads nothing; a parsed value is adopted; an unreadable one leaves the checklist empty |
| EducationalResources.Mount | components/educational-resources.tsx:30-45 | the page opens collapsed, with the loaded checklist, which is saved back |
| EducationalResources.SaveThenMount | components/educational-resources.tsx:31-45 | what the page saves, a later visit loads back unchanged |
| EducationalResources.MountIdempotent | components/educational-resources.tsx:31-45 | opening the page twice is the same as opening it once |
| EducationalResources.UnreadableIsErased | components/educational-resources.tsx:33-45 | an unreadable stored value loads as an empty checklist and is overwritten with `{}` |
| EducationalResources.MarkerOf | components/educational-resources.tsx:426-435 | exactly the one-shot items get a checkbox, showing ✅ exactly when the item is checked and ☐ otherwise |
| EducationalResources.StyleOf | components/educational-resources.tsx:436-443 | header items always get header styling; any other item is struck through exactly when checked |
| EducationalResources.HeadersHaveBullets | components/educational-resources.tsx:426-435 | no catalogue header ever shows a checkbox |
| EducationalResources.ToggleTouchesOneItem | components/educational-resources.tsx:53-58 | checking one catalogue item changes the marker and style of no other item, because ids are distinct |

## Left out

- Network and wallet I/O: `readContract`, `simulateContract`, `writeContract`, `getAddresses` and `window.ethereum` are not modelled. Their outcomes are the `Chain` and `Wallet` parameters, and `Promise.all`/`Promise.allSettled` are evaluated sequentially. Every per-field failure is caught, so order does not matter.
- Dead catch branches: the outer per-address catch and the `allSettled` filter in `getAllUsers` are not modelled. Nothing inside can throw, so they never run. The catch of `loadRankings` (`components/rankings-modal.tsx:44-46`) and the `reloaded.Err?` case of `Rankings.HandleDonate` are modelled but never happen: `getAllUsers` returns `[]` from its own catch (`lib/brujulaClient.js:272-275`) instead of rejecting.
- Floating point: `Number(wei) / 1e18` in `getUserDonations`, `parseFloat`, `parseEther` and `toFixed(4)` are not modelled.
  - Donations stay in wei.
  - The amount parser and the ETH→wei conversion are parameters.
  - The donations figure on the profile page, `toFixed(4)`, is not rendered.
- Integer width: `Number(bigint)` precision loss above 2^53 is not modelled. Streaks and donations are unbounded naturals.
- Timers: `setTimeout` reloads after a registration or a check-in are recorded as "a reload was scheduled" or "reloaded with these reads", not timed.
- Browser side effects: `window.open`, the clipboard copy, `console` logging and `alert` are not modelled. The alert text is kept in the state and the opened URL is returned.
- Rendering: JSX layout, animations, icons and CSS classes are not modelled beyond the marker and style choices above. The success dialog, the landing page, the footer, the layout, the wallet connect button and the app page hold no rules of their own.
- `components/donation-modal.tsx` is not modelled. The profile page mounts it (`components/user-profile-page.tsx:392`), but nothing ever sets `isDonationModalOpen` to true, so it never opens. Its guard (`components/donation-modal.tsx:25`) checks only the amount, with no recipient check. The rankings dialog's own donate flow is modelled.
- Translation content: the translation table in `lib/translations.ts` is not modelled; `t` is modelled over an abstract table.
- Catalogue content: item titles, URLs, YouTube links and category icons are not modelled. The catalogue keeps only the ids, kinds and header flags the page's logic reads.
- CheckedJson.Parse: only the JSON that `JSON.stringify` produces for the checklist is accepted: a flat object of booleans, with JSON white space and every string escape. Any other valid JSON (numbers, nested values, arrays) is read as unreadable. The page would instead adopt such a value as its checklist.
- CheckedJson.Stringify: keys are written in insertion order. JavaScript moves integer-like keys ("0", "12") to the front of an object, and the model does not. No catalogue id is integer-like.
- CheckedJson.Parse: a high-surrogate `\u` escape followed by a low-surrogate escape is decoded as the one character they encode. A lone surrogate escape (an unpaired high one, or a low one on its own) is rejected. `JSON.parse` would accept it, but Dafny strings hold only scalar values.
- EducationalResources.Mount: the first run of the save effect writes `{}` for the initial empty state before the loaded checklist is saved. The model keeps only the final write, which is the one the user can observe.
- Rankings.HandleDonate: the reload after a donation is the `reloaded` parameter. It is not modelled as another `getAllUsers` run.
- ManualDonation.Blocked: `parseFloat` is a parameter, so "not a number" comes from it. A `NaN` amount passes the guard, as in the source.
- AddressFormat.FormatAddressGuarded: lengths and slices count Unicode scalar values, while JavaScript's `length` and `slice` count UTF-16 code units. The two differ only for characters above U+FFFF: five 😀 have length 10 in JavaScript and are shortened, while the model sees length 5. Contract addresses are ASCII, where the two agree.
- ManualDonation.Preview: it shortens with `FormatAddressGuarded`, so it counts scalar values rather than UTF-16 code units, as above.
