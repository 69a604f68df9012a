/**
 The short display form of a wallet address used by the rankings, the
 profile page and the manual donation dialog: the first six characters,
 an ellipsis and the last four.
 */
module AddressFormat {
  import Text

  const Ellipsis: string := "..."

  /** `` `${a.slice(0, 6)}...${a.slice(-4)}` `` (rankings and profile page). */
  function FormatAddress(a: string): (r: string)
    ensures |r| == (if |a| < 6 then |a| else 6) + 3 + (if |a| < 4 then |a| else 4)
    ensures |a| >= 6 ==> |r| == 13 && r[..6] == a[..6] && r[6..9] == Ellipsis && r[9..] == a[|a| - 4..]
    ensures |a| < 6 ==> r[..|a|] == a && r[|a|..|a| + 3] == Ellipsis
    ensures |a| < 6 ==> r[|a| + 3..] == a[|a| - (if |a| < 4 then |a| else 4)..]
  {
    Text.Take(a, 6) + Ellipsis + Text.TakeLast(a, 4)
  }

  /** The manual donation dialog's variant: inputs shorter than ten characters are shown as typed. */
  function FormatAddressGuarded(a: string): (r: string)
    ensures |a| < 10 ==> r == a
    ensures |a| >= 10 ==> |r| == 13 && r[..6] == a[..6] && r[6..9] == Ellipsis && r[9..] == a[|a| - 4..]
  {
    if |a| < 10 then a else FormatAddress(a)
  }

  /** The guarded variant only differs from the plain one on inputs too short to shorten. */
  lemma GuardedAgreesOnLongInputs(a: string)
    ensures |a| >= 10 ==> FormatAddressGuarded(a) == FormatAddress(a)
    ensures |a| < 10 ==> FormatAddressGuarded(a) != FormatAddress(a)
  {
    if |a| < 10 {
      assert |FormatAddress(a)| > |a|;
    }
  }
}
