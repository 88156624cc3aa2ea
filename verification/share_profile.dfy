/** The share-profile screen: the user's statistics under its own rank tiers,
    the badges it shows, and the text it hands to the system share sheet. */
module ShareProfile {

  import opened Replies
  import opened Seqs
  import opened Records
  import opened JsText
  import opened CreatureStats

  datatype Stats = Stats(discovered: nat, favorites: nat, points: int, rank: string)

  /** The statistics shown before the first load completes. */
  const Initial := Stats(0, 0, 0, "Novice Explorer")

  // ----------------------------------------------------------------- tiers

  /** Points needed for each tier above the first, lowest first. */
  const TierThresholds: seq<int> := [250, 500, 750, 1000]

  const TierNames: seq<string> :=
    ["Novice Explorer", "Ocean Enthusiast", "Seasoned Explorer", "Expert Diver", "Master Marine Biologist"]

  /** Number of thresholds `points` reaches. */
  function TierLevel(points: int): (n: nat)
    ensures n < |TierNames|
    ensures forall i :: 0 <= i < |TierThresholds| ==> (i < n <==> TierThresholds[i] <= points)
  {
    (if points >= 250 then 1 else 0) + (if points >= 500 then 1 else 0)
    + (if points >= 750 then 1 else 0) + (if points >= 1000 then 1 else 0)
  }

  /** The rank chosen after the points are summed. */
  function Tier(points: int): (r: string)
    ensures r == TierNames[TierLevel(points)]
  {
    if points >= 1000 then "Master Marine Biologist"
    else if points >= 750 then "Expert Diver"
    else if points >= 500 then "Seasoned Explorer"
    else if points >= 250 then "Ocean Enthusiast"
    else "Novice Explorer"
  }

  /** More points never give a lower tier. */
  lemma TierMonotone(p: int, q: int)
    requires p <= q
    ensures TierLevel(p) <= TierLevel(q)
  {
  }

  // ------------------------------------------------------------ statistics

  /** `fetchUserStats`. The replies are the user's sightings (creature ids),
      wishlist rows (row ids) and the creature catalog serving the `.in`
      lookup, consulted only when something was sighted. A failing read is
      only logged, so the statistics stay what they were (`previous`). */
  function FetchUserStats(
    previous: Stats,
    sightings: Reply<seq<string>>,
    wishlist: Reply<seq<string>>,
    creatures: Reply<seq<Creature>>): (r: Stats)
    ensures sightings.Failed? || wishlist.Failed? ==> r == previous
    ensures sightings.Ok? && wishlist.Ok? && |sightings.rows| > 0 && creatures.Failed? ==> r == previous
    ensures sightings.Ok? && wishlist.Ok? && |sightings.rows| == 0 ==> r == Stats(0, |wishlist.rows|, 0, "Novice Explorer")
    ensures sightings.Ok? && wishlist.Ok? && (|sightings.rows| > 0 ==> creatures.Ok?) ==>
      && r.discovered == DistinctCount(sightings.rows)
      && r.favorites == |wishlist.rows|
      && (|sightings.rows| > 0 ==> r.points == TotalPoints(Found(creatures.rows, sightings.rows)))
      && r.rank == TierNames[TierLevel(r.points)]
  {
    if sightings.Failed? || wishlist.Failed? then previous
    else
      var unique := Dedup(sightings.rows);
      if |unique| == 0 then Stats(0, |wishlist.rows|, 0, Tier(0))
      else if creatures.Failed? then previous
      else
        FoundBySet(creatures.rows, unique, sightings.rows);
        var points := TotalPoints(Found(creatures.rows, unique));
        Stats(|unique|, |wishlist.rows|, points, Tier(points))
  }

  /** `userProfile?.full_name || 'Sea Explorer'` */
  function DisplayName(fullName: Option<string>): (r: string)
    ensures fullName.Some? && fullName.value != "" ==> r == fullName.value
    ensures fullName.None? || fullName.value == "" ==> r == "Sea Explorer"
  {
    ErrorText(OrEmpty(fullName), "Sea Explorer")
  }

  // ---------------------------------------------------------------- badges

  const BadgeNames: seq<string> := ["First Discovery", "Century Club", "Dedicated Explorer", "Creature Enthusiast"]

  /** The badges shown for some statistics, in screen order. */
  function Badges(st: Stats): (r: seq<string>)
    ensures "First Discovery" in r <==> st.discovered > 0
    ensures "Century Club" in r <==> st.points >= 100
    ensures "Dedicated Explorer" in r <==> st.discovered >= 5
    ensures "Creature Enthusiast" in r <==> st.favorites >= 3
    ensures forall b <- r :: b in BadgeNames
  {
    var all := BadgeNames;
    (if st.discovered > 0 then [all[0]] else [])
    + (if st.points >= 100 then [all[1]] else [])
    + (if st.discovered >= 5 then [all[2]] else [])
    + (if st.favorites >= 3 then [all[3]] else [])
  }

  // --------------------------------------------------------- share message

  const Header := "Check out my DiveDex profile!"
  const RankLabel := "\U{1F3C6} Rank: "
  const DiscoveredLabel := "\U{1F50D} Creatures Discovered: "
  const FavoritesLabel := "\U{2B50} Favorites: "
  const PointsLabel := "\U{2728} Total Points: "
  const Footer := "Download DiveDex and start your underwater adventure!"

  /** The lines of the message `shareProfile` hands to the share sheet. */
  function MessageLines(st: Stats): seq<string>
  {
    [Header, "", RankLabel + st.rank,
     DiscoveredLabel + IntToString(st.discovered),
     FavoritesLabel + IntToString(st.favorites),
     PointsLabel + IntToString(st.points),
     "", Footer]
  }

  function ShareMessage(st: Stats): string
  {
    JoinLines(MessageLines(st))
  }

  /** Lines joined with line breaks. */
  function JoinLines(ls: seq<string>): string
    requires |ls| > 0
  {
    if |ls| == 1 then ls[0] else ls[0] + "\n" + JoinLines(ls[1..])
  }

  /** Splits at the first line break: the line before it and the rest after. */
  function SplitLine(s: string): (r: (string, string))
    ensures '\n' !in r.0
    ensures '\n' in s ==> s == r.0 + "\n" + r.1
    ensures '\n' !in s ==> r == (s, "")
  {
    if |s| == 0 then ("", "")
    else if s[0] == '\n' then ("", s[1..])
    else
      var t := SplitLine(s[1..]);
      assert s == [s[0]] + s[1..];
      ([s[0]] + t.0, t.1)
  }

  lemma {:induction false} SplitLineOf(a: string, b: string)
    requires '\n' !in a
    ensures SplitLine(a + "\n" + b) == (a, b)
  {
    if |a| > 0 {
      assert (a + "\n" + b)[1..] == a[1..] + "\n" + b;
      assert a[0] in a;
      SplitLineOf(a[1..], b);
      assert [a[0]] + a[1..] == a;
    } else {
      assert a + "\n" + b == "\n" + b;
    }
  }

  /** The text split at every line break. */
  function Lines(s: string): (r: seq<string>)
    ensures |r| > 0
    ensures forall l <- r :: '\n' !in l
    decreases |s|
  {
    if '\n' in s then
      var t := SplitLine(s);
      [t.0] + Lines(t.1)
    else [s]
  }

  /** Splitting undoes joining, as long as no line holds a line break. */
  lemma {:induction false} LinesJoin(ls: seq<string>)
    requires |ls| > 0
    requires forall l <- ls :: '\n' !in l
    ensures Lines(JoinLines(ls)) == ls
  {
    if |ls| > 1 {
      var rest := JoinLines(ls[1..]);
      assert ls[0] in ls;
      SplitLineOf(ls[0], rest);
      assert '\n' in ls[0] + "\n" + rest by {
        assert (ls[0] + "\n" + rest)[|ls[0]|] == '\n';
      }
      LinesJoin(ls[1..]);
      assert ls == [ls[0]] + ls[1..];
    } else {
      assert ls[0] in ls;
    }
  }

  /** The text after `prefix` when the line starts with it. */
  function Field(line: string, prefix: string): (r: Option<string>)
    ensures r.Some? ==> line == prefix + r.value
  {
    if |prefix| <= |line| && line[..|prefix|] == prefix then Some(line[|prefix|..]) else None
  }

  lemma FieldOf(prefix: string, value: string)
    ensures Field(prefix + value, prefix) == Some(value)
  {
    assert (prefix + value)[..|prefix|] == prefix;
    assert (prefix + value)[|prefix|..] == value;
  }

  function NatField(line: string, prefix: string): (r: Option<nat>)
  {
    var f := Field(line, prefix);
    if f.None? then None
    else
      var n := ParseInt(f.value);
      if n.Some? && n.value >= 0 then Some(n.value as nat) else None
  }

  function IntField(line: string, prefix: string): (r: Option<int>)
  {
    var f := Field(line, prefix);
    if f.None? then None else ParseInt(f.value)
  }

  /** Reads the statistics back from a share message, line by line. */
  function ParseShareMessage(m: string): (r: Option<Stats>)
  {
    var ls := Lines(m);
    if |ls| != 8 then None
    else
      var rank := Field(ls[2], RankLabel);
      var d := NatField(ls[3], DiscoveredLabel);
      var f := NatField(ls[4], FavoritesLabel);
      var p := IntField(ls[5], PointsLabel);
      if ls[0] == Header && ls[1] == "" && ls[6] == "" && ls[7] == Footer
         && rank.Some? && d.Some? && f.Some? && p.Some?
      then Some(Stats(d.value, f.value, p.value, rank.value))
      else None
  }

  lemma NoLineBreak(n: int)
    ensures '\n' !in IntToString(n)
  {
    var s := IntToString(n);
    forall k | 0 <= k < |s| ensures s[k] != '\n' {
      assert IsDigit(s[k]) || s[k] == '-';
    }
  }

  lemma HeaderSingleLine()
    ensures '\n' !in Header
  {
    forall k | 0 <= k < |Header| ensures Header[k] != '\n' { }
  }

  lemma RankLabelSingleLine()
    ensures '\n' !in RankLabel
  {
    forall k | 0 <= k < |RankLabel| ensures RankLabel[k] != '\n' { }
  }

  lemma DiscoveredLabelSingleLine()
    ensures '\n' !in DiscoveredLabel
  {
    forall k | 0 <= k < |DiscoveredLabel| ensures DiscoveredLabel[k] != '\n' { }
  }

  lemma FavoritesLabelSingleLine()
    ensures '\n' !in FavoritesLabel
  {
    forall k | 0 <= k < |FavoritesLabel| ensures FavoritesLabel[k] != '\n' { }
  }

  lemma PointsLabelSingleLine()
    ensures '\n' !in PointsLabel
  {
    forall k | 0 <= k < |PointsLabel| ensures PointsLabel[k] != '\n' { }
  }

  /** The verifier does not index into a literal this long in one piece:
      the facts about its two halves are what let it see the whole. */
  lemma FooterSingleLine()
    ensures '\n' !in Footer
  {
    var a, b := "Download DiveDex and ", "start your underwater adventure!";
    forall k | 0 <= k < |a| ensures a[k] != '\n' { }
    forall k | 0 <= k < |b| ensures b[k] != '\n' { }
  }

  /** The share message carries the whole statistics: it reads back to them
      whenever the rank is a single line, as every tier name is. */
  lemma ShareMessageRoundTrip(st: Stats)
    requires '\n' !in st.rank
    ensures ParseShareMessage(ShareMessage(st)) == Some(st)
  {
    var ls := MessageLines(st);
    NoLineBreak(st.discovered);
    NoLineBreak(st.favorites);
    NoLineBreak(st.points);
    HeaderSingleLine();
    FooterSingleLine();
    RankLabelSingleLine();
    DiscoveredLabelSingleLine();
    FavoritesLabelSingleLine();
    PointsLabelSingleLine();
    assert '\n' !in ls[2] && '\n' !in ls[3] && '\n' !in ls[4] && '\n' !in ls[5];
    forall i | 0 <= i < |ls| ensures '\n' !in ls[i] {
    }
    LinesJoin(ls);
    FieldOf(RankLabel, st.rank);
    FieldOf(DiscoveredLabel, IntToString(st.discovered));
    FieldOf(FavoritesLabel, IntToString(st.favorites));
    FieldOf(PointsLabel, IntToString(st.points));
    IntToStringRoundTrip(st.discovered);
    IntToStringRoundTrip(st.favorites);
    IntToStringRoundTrip(st.points);
  }

  /** Every statistics value the screen can hold shares without loss. */
  lemma TierMessagesRoundTrip(discovered: nat, favorites: nat, points: int)
    ensures ParseShareMessage(ShareMessage(Stats(discovered, favorites, points, Tier(points)))) ==
      Some(Stats(discovered, favorites, points, Tier(points)))
  {
    TierSingleLine(points);
    ShareMessageRoundTrip(Stats(discovered, favorites, points, Tier(points)));
  }

  lemma TierSingleLine(points: int)
    ensures '\n' !in Tier(points)
  {
    var r := Tier(points);
    forall k | 0 <= k < |r| ensures r[k] != '\n' { }
  }
}
