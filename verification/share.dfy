/**
 The "Share on X" post: a fixed template around the streak, the completed
 habits and the user's address, and the intent URL that carries it.
 */
module Share {
  import Text
  import UriComponent
  import Wrappers

  const CheckMark: string := "\U{2714}\U{FE0F} "
  const SupportIntro: string := "Support my routines by donating to: "
  const SiteLine: string := "Find your north in the age of distraction: " + "https://v0-brujula.vercel.app/"
  const IntentPrefix: string := "https://twitter.com/intent/tweet?text="

  /** The first line of the post. */
  function Header(streak: nat): (r: string)
    ensures '\n' !in r
  {
    "Today I completed my " + Text.NatToString(streak) + "-day streak on #Br\U{00FA}jula \U{1F9ED}"
  }

  function SupportLine(address: string): (r: string)
    ensures '\n' !in address ==> '\n' !in r
  {
    SupportIntro + address + " \U{1F4B8}"
  }

  /** One `✔️ name` line per habit, in the order given. */
  function HabitLines(habits: seq<string>): (r: seq<string>)
    ensures |r| == |habits|
    ensures forall i :: 0 <= i < |habits| ==> r[i] == CheckMark + habits[i]
  {
    seq(|habits|, i requires 0 <= i < |habits| => CheckMark + habits[i])
  }

  /** `registeredHabits.map(h => `✔️ ${h}`).join("\n")`. */
  function HabitsBlock(habits: seq<string>): string {
    Text.Join(HabitLines(habits), "\n")
  }

  /** The post text `generateTweet` builds. */
  function TweetText(streak: nat, habits: seq<string>, address: string): (r: string)
    ensures Header(streak) <= r
    ensures Text.Contains(r, SupportLine(address))
    ensures |r| >= |SiteLine| && r[|r| - |SiteLine|..] == SiteLine
  {
    var pre := Header(streak) + "\n\n" + HabitsBlock(habits) + "\n\n";
    var r := pre + SupportLine(address) + "\n\n" + SiteLine;
    assert r[|pre|..|pre| + |SupportLine(address)|] == SupportLine(address);
    assert Text.OccursAt(r, SupportLine(address), |pre|);
    r
  }

  /** The lines of the post: the header, a blank line, one line per habit (a single blank
      line when there are none), a blank line, the donation line, a blank line and the
      site line. */
  lemma TweetLines(streak: nat, habits: seq<string>, address: string)
    requires forall i :: 0 <= i < |habits| ==> '\n' !in habits[i]
    requires '\n' !in address
    ensures Text.Split(TweetText(streak, habits, address), '\n') ==
      [Header(streak), ""] + (if |habits| == 0 then [""] else HabitLines(habits))
      + ["", SupportLine(address), "", SiteLine]
  {
    var nl := '\n';
    var h, b, s := Header(streak), HabitsBlock(habits), SupportLine(address);
    var t3 := Closing(s);
    var mid: seq<string> := if |habits| == 0 then [""] else HabitLines(habits);
    var t5 := [nl] + (b + [nl] + t3);
    TweetShape(streak, habits, address);
    ClosingLines(s);
    BlockLines(habits, t3);
    SplitLeading(b + [nl] + t3);
    Text.SplitAppend(h, nl, t5);
    LinesShape(h, mid, s);
  }

  lemma TweetShape(streak: nat, habits: seq<string>, address: string)
    ensures TweetText(streak, habits, address) ==
      Header(streak) + ['\n'] + (['\n'] + (HabitsBlock(habits) + ['\n'] + Closing(SupportLine(address))))
  {
    Regroup(Header(streak), HabitsBlock(habits), SupportLine(address));
  }

  lemma Regroup(h: string, b: string, s: string)
    ensures h + "\n\n" + b + "\n\n" + s + "\n\n" + SiteLine ==
      h + ['\n'] + (['\n'] + (b + ['\n'] + Closing(s)))
  {
    var nl := '\n';
    var site := SiteLine;
    var c := [nl] + (s + [nl] + ([nl] + site));
    assert Closing(s) == c;
    assert "\n\n" == [nl] + [nl];
    assert h + "\n\n" + b + "\n\n" + s + "\n\n" + site ==
      h + [nl] + ([nl] + (b + [nl] + ([nl] + (s + [nl] + ([nl] + site)))));
  }

  lemma LinesShape(h: string, mid: seq<string>, s: string)
    ensures [h] + ([""] + (mid + ["", s, "", SiteLine])) == [h, ""] + mid + ["", s, "", SiteLine]
  {
  }

  /** The text after the habit block. */
  function Closing(support: string): string {
    ['\n'] + (support + ['\n'] + (['\n'] + SiteLine))
  }

  lemma ClosingLines(support: string)
    requires '\n' !in support
    ensures Text.Split(Closing(support), '\n') == ["", support, "", SiteLine]
  {
    SiteHasNoNewline();
    SplitClosing(support, SiteLine);
  }

  lemma SiteHasNoNewline()
    ensures '\n' !in SiteLine
  {
  }

  lemma SplitClosing(support: string, site: string)
    requires '\n' !in support && '\n' !in site
    ensures Text.Split(['\n'] + (support + ['\n'] + (['\n'] + site)), '\n') == ["", support, "", site]
  {
    var nl := '\n';
    Text.SplitNoSeparator(site, nl);
    SplitLeading(site);
    Text.SplitAppend(support, nl, [nl] + site);
    SplitLeading(support + [nl] + ([nl] + site));
  }

  lemma BlockLines(habits: seq<string>, rest: string)
    requires forall i :: 0 <= i < |habits| ==> '\n' !in habits[i]
    ensures Text.Split(HabitsBlock(habits) + ['\n'] + rest, '\n') ==
      (if |habits| == 0 then [""] else HabitLines(habits)) + Text.Split(rest, '\n')
  {
    var nl := '\n';
    if |habits| == 0 {
      assert HabitsBlock(habits) + [nl] + rest == [nl] + rest;
      SplitLeading(rest);
    } else {
      forall k | 0 <= k < |habits| ensures nl !in HabitLines(habits)[k] {
        assert nl !in CheckMark;
      }
      Text.SplitJoinThen(HabitLines(habits), nl, rest);
    }
  }

  lemma SplitLeading(rest: string)
    ensures Text.Split(['\n'] + rest, '\n') == [""] + Text.Split(rest, '\n')
  {
    Text.SplitAppend([], '\n', rest);
    assert [] + ['\n'] + rest == ['\n'] + rest;
  }

  /** The intent URL opened in a new window. Its query carries the post text exactly and
      contains nothing but unreserved characters and percent escapes. */
  function IntentUrl(streak: nat, habits: seq<string>, address: string): (url: string)
    ensures IntentPrefix <= url
    ensures UriComponent.Decode(url[|IntentPrefix|..]) == Wrappers.Some(TweetText(streak, habits, address))
    ensures forall i :: |IntentPrefix| <= i < |url| ==> url[i] == '%' || UriComponent.IsUnreserved(url[i])
  {
    var text := TweetText(streak, habits, address);
    UriComponent.RoundTrip(text);
    var url := IntentPrefix + UriComponent.Encode(text);
    assert url[|IntentPrefix|..] == UriComponent.Encode(text);
    url
  }
}
