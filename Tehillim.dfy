/** The psalm list of the Tehillim screen: grouping by day of the week or by book, the
    favourites group, the search filter, favourite flags, and the gematria of Hebrew letters. */
module Tehillim {
  import opened Wrappers
  import opened Seqs
  import opened Strings

  /** One psalm as stored in `tehilim.json`. */
  datatype Episode = Episode(id: int, name: string, isFavorite: bool)

  /** A titled section of the list; its identity is its title. */
  datatype EpisodeGroup = EpisodeGroup(title: string, episodes: seq<Episode>) {
    function Id(): string { title }
  }

  datatype SortCriterion = Day | Book | Favorite

  /** The raw value stored in the defaults under "sortTehilimCriterion"; each of the three names
      belongs to exactly one criterion. */
  function CriterionRaw(c: SortCriterion): (raw: string)
    ensures raw == "day" <==> c == Day
    ensures raw == "book" <==> c == Book
    ensures raw == "favorite" <==> c == Favorite
  {
    match c
    case Day => "day"
    case Book => "book"
    case Favorite => "favorite"
  }

  function CriterionFromRaw(s: string): (r: Option<SortCriterion>)
    ensures r.Some? ==> CriterionRaw(r.value) == s
  {
    if s == "day" then Some(Day)
    else if s == "book" then Some(Book)
    else if s == "favorite" then Some(Favorite)
    else None
  }

  lemma CriterionRawRoundTrip(c: SortCriterion)
    ensures CriterionFromRaw(CriterionRaw(c)) == Some(c)
  {
  }

  /** The getter of `sortCriterion`: a missing or unknown stored value reads as `day`. */
  function CriterionOf(stored: Option<string>): (c: SortCriterion)
    ensures stored.Some? && CriterionFromRaw(stored.value).Some? ==> c == CriterionFromRaw(stored.value).value
    ensures (stored.None? || CriterionFromRaw(stored.value).None?) ==> c == Day
  {
    CriterionFromRaw(stored.GetOr("day")).GetOr(Day)
  }

  // ---------------------------------------------------------------------------
  // Range tables

  /** A titled half-open index range `lo..<hi`. */
  datatype GroupRange = GroupRange(title: string, lo: nat, hi: nat)

  const DayRanges: seq<GroupRange> := [
    GroupRange("Day-1", 0, 29),
    GroupRange("Day-2", 29, 50),
    GroupRange("Day-3", 50, 72),
    GroupRange("Day-4", 72, 89),
    GroupRange("Day-5", 89, 106),
    GroupRange("Day-6", 106, 119),
    GroupRange("Day-7", 119, 150)
  ]

  const BookRanges: seq<GroupRange> := [
    GroupRange("Book-1", 0, 41),
    GroupRange("Book-2", 41, 72),
    GroupRange("Book-3", 72, 89),
    GroupRange("Book-4", 89, 106),
    GroupRange("Book-5", 106, 150)
  ]

  /** The ranges are non-empty, follow each other without gap or overlap, and together span `lo..<hi`. */
  predicate Contiguous(rs: seq<GroupRange>, lo: int, hi: int)
    decreases |rs|
  {
    if rs == [] then lo == hi
    else rs[0].lo == lo && rs[0].lo < rs[0].hi && Contiguous(rs[1..], rs[0].hi, hi)
  }

  predicate InRange(r: GroupRange, i: int) {
    r.lo <= i < r.hi
  }

  lemma {:induction false} ContiguousBounds(rs: seq<GroupRange>, lo: int, hi: int)
    requires Contiguous(rs, lo, hi)
    ensures lo <= hi
    ensures forall k :: 0 <= k < |rs| ==> lo <= rs[k].lo < rs[k].hi <= hi
    decreases |rs|
  {
    if rs != [] {
      ContiguousBounds(rs[1..], rs[0].hi, hi);
      forall k | 1 <= k < |rs| ensures rs[0].hi <= rs[k].lo {
        assert rs[k] == rs[1..][k - 1];
      }
    }
  }

  /** Every index of `lo..<hi` lies in exactly one of the ranges. */
  lemma {:induction false} ContiguousPartition(rs: seq<GroupRange>, lo: int, hi: int, i: int)
    requires Contiguous(rs, lo, hi) && lo <= i < hi
    ensures exists k :: 0 <= k < |rs| && InRange(rs[k], i)
    ensures forall k, m :: 0 <= k < |rs| && 0 <= m < |rs| && InRange(rs[k], i) && InRange(rs[m], i) ==> k == m
    decreases |rs|
  {
    ContiguousBounds(rs[1..], rs[0].hi, hi);
    if i < rs[0].hi {
      assert InRange(rs[0], i);
      forall k | 1 <= k < |rs| ensures !InRange(rs[k], i) {
        assert rs[k] == rs[1..][k - 1];
      }
    } else {
      ContiguousPartition(rs[1..], rs[0].hi, hi, i);
      var k :| 0 <= k < |rs[1..]| && InRange(rs[1..][k], i);
      assert InRange(rs[k + 1], i);
      forall k, m | 0 <= k < |rs| && 0 <= m < |rs| && InRange(rs[k], i) && InRange(rs[m], i)
        ensures k == m
      {
        assert k > 0 && m > 0;
        assert rs[k] == rs[1..][k - 1] && rs[m] == rs[1..][m - 1];
      }
    }
  }

  lemma DayRangesPartition()
    ensures Contiguous(DayRanges, 0, 150)
  {
    var rs := DayRanges;
    assert Contiguous(rs[7..], 150, 150);
    assert Contiguous(rs[6..], 119, 150);
    assert Contiguous(rs[5..], 106, 150);
    assert Contiguous(rs[4..], 89, 150);
    assert Contiguous(rs[3..], 72, 150);
    assert Contiguous(rs[2..], 50, 150);
    assert Contiguous(rs[1..], 29, 150);
  }

  lemma BookRangesPartition()
    ensures Contiguous(BookRanges, 0, 150)
  {
    var rs := BookRanges;
    assert Contiguous(rs[5..], 150, 150);
    assert Contiguous(rs[4..], 106, 150);
    assert Contiguous(rs[3..], 89, 150);
    assert Contiguous(rs[2..], 72, 150);
    assert Contiguous(rs[1..], 41, 150);
  }

  // ---------------------------------------------------------------------------
  // Grouping

  /** `Range.clamped(to: 0..<n)` applied to one bound. */
  function Clamp(x: int, n: nat): (r: nat)
    ensures r <= n
    ensures 0 <= x <= n ==> r == x
  {
    if x < 0 then 0 else if x > n then n else x
  }

  /** The group for one range: the slice of `eps` at the clamped range, or nothing when that is empty. */
  function SliceGroup(r: GroupRange, eps: seq<Episode>): (g: Option<EpisodeGroup>)
    requires r.lo <= r.hi
    ensures g.Some? <==> Clamp(r.lo, |eps|) < Clamp(r.hi, |eps|)
    ensures g.Some? ==> g.value.title == r.title && g.value.episodes == eps[Clamp(r.lo, |eps|)..Clamp(r.hi, |eps|)]
  {
    var lo, hi := Clamp(r.lo, |eps|), Clamp(r.hi, |eps|);
    if lo == hi then None else Some(EpisodeGroup(r.title, eps[lo..hi]))
  }

  /** `ranges.compactMap(SliceGroup)`. */
  function GroupsFrom(ranges: seq<GroupRange>, eps: seq<Episode>): (gs: seq<EpisodeGroup>)
    requires forall k :: 0 <= k < |ranges| ==> ranges[k].lo <= ranges[k].hi
    ensures |gs| <= |ranges|
    ensures forall k :: 0 <= k < |gs| ==> gs[k].episodes != []
  {
    if ranges == [] then []
    else
      var first := SliceGroup(ranges[0], eps);
      (if first.Some? then [first.value] else []) + GroupsFrom(ranges[1..], eps)
  }

  /** All episodes of the groups, group after group. */
  function GroupedEpisodes(gs: seq<EpisodeGroup>): seq<Episode> {
    if gs == [] then [] else gs[0].episodes + GroupedEpisodes(gs[1..])
  }

  lemma GroupedCons(g: EpisodeGroup, rest: seq<EpisodeGroup>)
    ensures GroupedEpisodes([g] + rest) == g.episodes + GroupedEpisodes(rest)
  {
    assert ([g] + rest)[1..] == rest;
  }

  /** Contiguous ranges spanning `lo..<hi` group exactly the episodes at `lo..<hi` clamped to the
      list: every episode of that window once, in order, whatever the length of the list. */
  lemma {:induction false} GroupsFromCover(ranges: seq<GroupRange>, eps: seq<Episode>, lo: int, hi: int)
    requires Contiguous(ranges, lo, hi)
    ensures forall k :: 0 <= k < |ranges| ==> ranges[k].lo <= ranges[k].hi
    ensures Clamp(lo, |eps|) <= Clamp(hi, |eps|)
    ensures GroupedEpisodes(GroupsFrom(ranges, eps)) == eps[Clamp(lo, |eps|)..Clamp(hi, |eps|)]
    decreases |ranges|
  {
    ContiguousBounds(ranges, lo, hi);
    if ranges != [] {
      var mid := ranges[0].hi;
      GroupsFromCover(ranges[1..], eps, mid, hi);
      var first := SliceGroup(ranges[0], eps);
      var rest := GroupsFrom(ranges[1..], eps);
      assert GroupsFrom(ranges, eps) == (if first.Some? then [first.value] else []) + rest;
      CoverStep(first, rest, eps, Clamp(lo, |eps|), Clamp(mid, |eps|), Clamp(hi, |eps|));
    }
  }

  /** One step of the cover: the optional first group's slice followed by the rest's. */
  lemma CoverStep(first: Option<EpisodeGroup>, rest: seq<EpisodeGroup>, eps: seq<Episode>, a: nat, b: nat, c: nat)
    requires a <= b <= c <= |eps|
    requires first.Some? <==> a < b
    requires first.Some? ==> first.value.episodes == eps[a..b]
    requires GroupedEpisodes(rest) == eps[b..c]
    ensures GroupedEpisodes((if first.Some? then [first.value] else []) + rest) == eps[a..c]
  {
    if first.Some? {
      GroupedCons(first.value, rest);
      assert eps[a..c] == eps[a..b] + eps[b..c];
    } else {
      assert [] + rest == rest;
    }
  }

  /** Every range of the day and book tables is ordered. */
  lemma TableRangesOrdered()
    ensures forall k :: 0 <= k < |DayRanges| ==> DayRanges[k].lo <= DayRanges[k].hi
    ensures forall k :: 0 <= k < |BookRanges| ==> BookRanges[k].lo <= BookRanges[k].hi
  {
    DayRangesPartition();
    BookRangesPartition();
    ContiguousBounds(DayRanges, 0, 150);
    ContiguousBounds(BookRanges, 0, 150);
  }

  /** With the day or book table, the groups hold the first `min(count, 150)` episodes exactly. */
  lemma TableGroupsCover(eps: seq<Episode>)
    ensures forall k :: 0 <= k < |DayRanges| ==> DayRanges[k].lo <= DayRanges[k].hi
    ensures forall k :: 0 <= k < |BookRanges| ==> BookRanges[k].lo <= BookRanges[k].hi
    ensures GroupedEpisodes(GroupsFrom(DayRanges, eps)) == Prefix(eps, 150)
    ensures GroupedEpisodes(GroupsFrom(BookRanges, eps)) == Prefix(eps, 150)
  {
    DayRangesPartition();
    BookRangesPartition();
    GroupsFromCover(DayRanges, eps, 0, 150);
    GroupsFromCover(BookRanges, eps, 0, 150);
  }

  // ---------------------------------------------------------------------------
  // Favourites

  function IsFav(e: Episode): bool { e.isFavorite }

  function EpisodeKey(e: Episode): int { e.id }

  /** The single favourites group: the episodes marked favourite, ascending by id. */
  function FavoritesGroup(eps: seq<Episode>): (g: EpisodeGroup)
    ensures g.title == "FAVORITES_LOC_STRING"
    ensures SortedBy(g.episodes, EpisodeKey)
    ensures multiset(g.episodes) == multiset(Filter(eps, IsFav))
  {
    EpisodeGroup("FAVORITES_LOC_STRING", SortBy(Filter(eps, IsFav), EpisodeKey))
  }

  /** The favourites group holds exactly the favourite episodes of the list. */
  lemma FavoritesExact(eps: seq<Episode>, e: Episode)
    ensures e in FavoritesGroup(eps).episodes <==> e in eps && e.isFavorite
  {
    var g := FavoritesGroup(eps);
    var f := Filter(eps, IsFav);
    assert e in g.episodes <==> e in multiset(g.episodes);
    assert e in f <==> e in multiset(f);
    if e in eps && e.isFavorite {
      var k :| 0 <= k < |eps| && eps[k] == e;
      assert IsFav(eps[k]);
    }
    if e in f {
      var k :| 0 <= k < |f| && f[k] == e;
      assert IsFav(f[k]) && f[k] in eps;
    }
  }

  // ---------------------------------------------------------------------------
  // Search

  /** An episode matches when its name or its decimal id contains the text. */
  predicate Matches(e: Episode, text: string)
    ensures Matches(e, text) <==> exists i :: OccursAt(e.name, text, i) || OccursAt(IntToString(e.id), text, i)
    ensures text == IntToString(e.id) ==> Matches(e, text)
  {
    ContainsAt(e.name, text);
    ContainsAt(IntToString(e.id), text);
    assert text == IntToString(e.id) ==> OccursAt(IntToString(e.id), text, 0);
    Contains(e.name, text) || Contains(IntToString(e.id), text)
  }

  function MatchesText(text: string): Episode -> bool {
    (e: Episode) => Matches(e, text)
  }

  /** Each group keeps its matching episodes in order; groups left empty are dropped. The search
      predicate is `MatchesText(text)`; the lemmas below hold for any predicate. */
  function SearchGroups(gs: seq<EpisodeGroup>, matches: Episode -> bool): (r: seq<EpisodeGroup>)
    ensures |r| <= |gs|
    ensures forall k :: 0 <= k < |r| ==> r[k].episodes != []
    ensures forall k :: 0 <= k < |r| ==> forall j :: 0 <= j < |r[k].episodes| ==> matches(r[k].episodes[j])
  {
    if gs == [] then []
    else
      var kept := Filter(gs[0].episodes, matches);
      (if kept == [] then [] else [EpisodeGroup(gs[0].title, kept)]) + SearchGroups(gs[1..], matches)
  }

  /** Every matching episode survives the search, in a group with its original title. */
  lemma SearchKeepsMatches(gs: seq<EpisodeGroup>, matches: Episode -> bool, i: nat, e: Episode)
    requires i < |gs| && e in gs[i].episodes && matches(e)
    ensures exists k :: 0 <= k < |SearchGroups(gs, matches)| && SearchGroups(gs, matches)[k].title == gs[i].title
                        && e in SearchGroups(gs, matches)[k].episodes
  {
    var k := SearchGroupOf(gs, matches, i, e);
  }

  /** The index of the searched group that keeps `e`. */
  lemma {:induction false} SearchGroupOf(gs: seq<EpisodeGroup>, matches: Episode -> bool, i: nat, e: Episode) returns (k: nat)
    requires i < |gs| && e in gs[i].episodes && matches(e)
    ensures k < |SearchGroups(gs, matches)| && SearchGroups(gs, matches)[k].title == gs[i].title
            && e in SearchGroups(gs, matches)[k].episodes
    decreases |gs|
  {
    var kept := Filter(gs[0].episodes, matches);
    var head: seq<EpisodeGroup> := if kept == [] then [] else [EpisodeGroup(gs[0].title, kept)];
    var rest := SearchGroups(gs[1..], matches);
    assert SearchGroups(gs, matches) == head + rest;
    if i == 0 {
      assert e in kept;
      k := 0;
    } else {
      assert gs[1..][i - 1] == gs[i];
      var k' := SearchGroupOf(gs[1..], matches, i - 1, e);
      assert (head + rest)[|head| + k'] == rest[k'];
      k := |head| + k';
    }
  }

  /** The search keeps exactly the matching episodes, in their original order across the groups. */
  lemma {:induction false} SearchGroupsFlatten(gs: seq<EpisodeGroup>, matches: Episode -> bool)
    ensures GroupedEpisodes(SearchGroups(gs, matches)) == Filter(GroupedEpisodes(gs), matches)
    decreases |gs|
  {
    if gs != [] {
      var kept := Filter(gs[0].episodes, matches);
      var rest := SearchGroups(gs[1..], matches);
      SearchGroupsFlatten(gs[1..], matches);
      FilterAppend(gs[0].episodes, GroupedEpisodes(gs[1..]), matches);
      if kept == [] {
        assert SearchGroups(gs, matches) == rest;
      } else {
        assert SearchGroups(gs, matches) == [EpisodeGroup(gs[0].title, kept)] + rest;
        assert ([EpisodeGroup(gs[0].title, kept)] + rest)[1..] == rest;
      }
    }
  }

  /** Sorted by day or by book and searched, the list holds exactly the matching episodes among
      the first 150, in their original order. */
  lemma DisplayedSearch(eps: seq<Episode>, c: SortCriterion, text: string)
    requires !c.Favorite?
    ensures text == [] ==> GroupedEpisodes(Displayed(eps, c, text)) == Prefix(eps, 150)
    ensures text != [] ==> GroupedEpisodes(Displayed(eps, c, text)) == Filter(Prefix(eps, 150), MatchesText(text))
  {
    TableGroupsCover(eps);
    var grouped := if c.Day? then GroupsFrom(DayRanges, eps) else GroupsFrom(BookRanges, eps);
    SearchGroupsFlatten(grouped, MatchesText(text));
  }

  /** The list shown for a sort criterion and search text; empty text applies no filter. */
  function Displayed(eps: seq<Episode>, c: SortCriterion, text: string): (gs: seq<EpisodeGroup>)
    ensures c.Favorite? && text == [] ==> |gs| == 1 && gs[0] == FavoritesGroup(eps)
    ensures !c.Favorite? ==> |gs| <= 7
  {
    TableRangesOrdered();
    var grouped :=
      match c
      case Day => GroupsFrom(DayRanges, eps)
      case Book => GroupsFrom(BookRanges, eps)
      case Favorite => [FavoritesGroup(eps)];
    if text == [] then grouped else SearchGroups(grouped, MatchesText(text))
  }

  // ---------------------------------------------------------------------------
  // Favourite flags

  function HasId(id: int): Episode -> bool {
    (e: Episode) => e.id == id
  }

  /** The list with the favourite flag of the first episode with `id` flipped. */
  function Toggled(eps: seq<Episode>, id: int): (r: seq<Episode>)
    ensures |r| == |eps|
    ensures forall k :: 0 <= k < |r| ==> r[k].id == eps[k].id && r[k].name == eps[k].name
    ensures (forall k :: 0 <= k < |eps| ==> eps[k].id != id) ==> r == eps
    ensures forall k :: 0 <= k < |r| && r[k].isFavorite != eps[k].isFavorite ==>
              eps[k].id == id && forall j :: 0 <= j < k ==> eps[j].id != id
  {
    match FirstIndexWhere(eps, HasId(id))
    case None => eps
    case Some(i) => eps[i := eps[i].(isFavorite := !eps[i].isFavorite)]
  }

  /** `k` is the position of the first episode with `id`. */
  predicate FirstWithId(eps: seq<Episode>, id: int, k: int) {
    0 <= k < |eps| && eps[k].id == id && forall j :: 0 <= j < k ==> eps[j].id != id
  }

  /** `isFavorite(episodeId:)`: the flag of the first episode with `id`, false when there is none. */
  function FavoriteFlag(eps: seq<Episode>, id: int): (b: bool)
    ensures b ==> exists k :: 0 <= k < |eps| && eps[k].id == id && eps[k].isFavorite
    ensures (forall k :: 0 <= k < |eps| ==> eps[k].id != id) ==> !b
    ensures forall k :: FirstWithId(eps, id, k) ==> b == eps[k].isFavorite
  {
    match FirstIndexWhere(eps, HasId(id))
    case None => false
    case Some(i) => eps[i].isFavorite
  }

  lemma {:induction false} FirstIndexSameIds(a: seq<Episode>, b: seq<Episode>, id: int)
    requires |a| == |b| && forall k :: 0 <= k < |a| ==> a[k].id == b[k].id
    ensures FirstIndexWhere(a, HasId(id)) == FirstIndexWhere(b, HasId(id))
    decreases |a|
  {
    if a != [] {
      FirstIndexSameIds(a[1..], b[1..], id);
    }
  }

  /** Toggling a favourite twice restores the list. */
  lemma ToggleTwice(eps: seq<Episode>, id: int)
    ensures Toggled(Toggled(eps, id), id) == eps
  {
    FirstIndexSameIds(eps, Toggled(eps, id), id);
  }

  /** Toggling flips what isFavorite reports for that id, when the id is present. */
  lemma ToggleFlipsFlag(eps: seq<Episode>, id: int)
    requires exists k :: 0 <= k < |eps| && eps[k].id == id
    ensures FavoriteFlag(Toggled(eps, id), id) == !FavoriteFlag(eps, id)
  {
    FirstIndexSameIds(eps, Toggled(eps, id), id);
  }

  // ---------------------------------------------------------------------------
  // Gematria

  /** The numeric value of a Hebrew letter; final forms count as their base letters, anything else 0. */
  function LetterValue(c: char): (v: nat)
    ensures v <= 400
  {
    match c
    case '\U{05D0}' => 1    // alef
    case '\U{05D1}' => 2    // bet
    case '\U{05D2}' => 3    // gimel
    case '\U{05D3}' => 4    // dalet
    case '\U{05D4}' => 5    // he
    case '\U{05D5}' => 6    // vav
    case '\U{05D6}' => 7    // zayin
    case '\U{05D7}' => 8    // het
    case '\U{05D8}' => 9    // tet
    case '\U{05D9}' => 10   // yod
    case '\U{05DB}' => 20   // kaf
    case '\U{05DA}' => 20   // final kaf
    case '\U{05DC}' => 30   // lamed
    case '\U{05DE}' => 40   // mem
    case '\U{05DD}' => 40   // final mem
    case '\U{05E0}' => 50   // nun
    case '\U{05DF}' => 50   // final nun
    case '\U{05E1}' => 60   // samekh
    case '\U{05E2}' => 70   // ayin
    case '\U{05E4}' => 80   // pe
    case '\U{05E3}' => 80   // final pe
    case '\U{05E6}' => 90   // tsadi
    case '\U{05E5}' => 90   // final tsadi
    case '\U{05E7}' => 100  // qof
    case '\U{05E8}' => 200  // resh
    case '\U{05E9}' => 300  // shin
    case '\U{05EA}' => 400  // tav
    case _ => 0
  }

  /** Every final form has its base letter's value, and the base letters' values are the standard ones. */
  lemma FinalFormsEqualBase()
    ensures LetterValue('\U{05DA}') == LetterValue('\U{05DB}') == 20
    ensures LetterValue('\U{05DD}') == LetterValue('\U{05DE}') == 40
    ensures LetterValue('\U{05DF}') == LetterValue('\U{05E0}') == 50
    ensures LetterValue('\U{05E3}') == LetterValue('\U{05E4}') == 80
    ensures LetterValue('\U{05E5}') == LetterValue('\U{05E6}') == 90
    ensures LetterValue(' ') == LetterValue('a') == 0
  {
  }

  /** `hebrewGematria`: the left fold adding each character's letter value. */
  function Gematria(s: string): (n: nat)
    ensures n <= 400 * |s|
  {
    if s == [] then 0 else Gematria(s[..|s| - 1]) + LetterValue(s[|s| - 1])
  }

  /** The gematria of a concatenation is the sum of the parts' gematria. */
  lemma {:induction false} GematriaAdditive(a: string, b: string)
    ensures Gematria(a + b) == Gematria(a) + Gematria(b)
    decreases |b|
  {
    if b != [] {
      assert (a + b)[..|a + b| - 1] == a + b[..|b| - 1];
      GematriaAdditive(a, b[..|b| - 1]);
    } else {
      assert a + b == a;
    }
  }

  // ---------------------------------------------------------------------------
  // The view model

  class TehillimViewModel {
    /** The loaded psalms, in file order. */
    var allEpisodes: seq<Episode>
    /** The published grouped list. */
    var episodeGroups: seq<EpisodeGroup>
    var searchText: string
    /** The value stored under "sortTehilimCriterion", if any. */
    var storedCriterion: Option<string>
    /** The last list written to `tehilim.json`, if any. */
    var savedFile: Option<seq<Episode>>

    /** `init()`: the loaded episodes, then one `updateSortAndFilter()`. */
    constructor(loaded: seq<Episode>, stored: Option<string>)
      ensures allEpisodes == loaded && searchText == [] && storedCriterion == stored && savedFile.None?
      ensures episodeGroups == Displayed(loaded, CriterionOf(stored), [])
    {
      allEpisodes := loaded;
      searchText := [];
      storedCriterion := stored;
      savedFile := None;
      episodeGroups := Displayed(loaded, CriterionOf(stored), []);
    }

    /** The `sortCriterion` getter. */
    function SortCriterionValue(): SortCriterion
      reads this
    {
      CriterionOf(storedCriterion)
    }

    /** `updateSortAndFilter()`: regroup by the current criterion, then apply a non-empty search. */
    method UpdateSortAndFilter()
      modifies this
      ensures episodeGroups == Displayed(allEpisodes, SortCriterionValue(), searchText)
      ensures allEpisodes == old(allEpisodes) && searchText == old(searchText)
      ensures storedCriterion == old(storedCriterion) && savedFile == old(savedFile)
    {
      TableRangesOrdered();
      match SortCriterionValue() {
        case Day =>
          episodeGroups := GroupsFrom(DayRanges, allEpisodes);
        case Book =>
          episodeGroups := GroupsFrom(BookRanges, allEpisodes);
        case Favorite =>
          episodeGroups := [FavoritesGroup(allEpisodes)];
      }
      if searchText != [] {
        episodeGroups := SearchGroups(episodeGroups, MatchesText(searchText));
      }
    }

    /** The `sortCriterion` setter: stores the raw value and regroups. */
    method SetSortCriterion(c: SortCriterion)
      modifies this
      ensures storedCriterion == Some(CriterionRaw(c)) && SortCriterionValue() == c
      ensures episodeGroups == Displayed(allEpisodes, c, searchText)
      ensures allEpisodes == old(allEpisodes) && searchText == old(searchText) && savedFile == old(savedFile)
    {
      storedCriterion := Some(CriterionRaw(c));
      CriterionRawRoundTrip(c);
      UpdateSortAndFilter();
    }

    /** Setting `searchText` regroups through its `didSet`. */
    method SetSearchText(text: string)
      modifies this
      ensures searchText == text
      ensures episodeGroups == Displayed(allEpisodes, SortCriterionValue(), text)
      ensures allEpisodes == old(allEpisodes) && storedCriterion == old(storedCriterion) && savedFile == old(savedFile)
    {
      searchText := text;
      UpdateSortAndFilter();
    }

    /** `isFavorite(episodeId:)`. */
    function IsFavorite(id: int): (b: bool)
      reads this
      ensures b ==> exists k :: 0 <= k < |allEpisodes| && allEpisodes[k].id == id && allEpisodes[k].isFavorite
      ensures (forall k :: 0 <= k < |allEpisodes| ==> allEpisodes[k].id != id) ==> !b
      ensures forall k :: FirstWithId(allEpisodes, id, k) ==> b == allEpisodes[k].isFavorite
    {
      FavoriteFlag(allEpisodes, id)
    }

    /** `toggleFavorite(for:)`: flips the flag of the first episode with `id` in place and saves the
        list; an unknown id changes nothing. The grouped list is not rebuilt. `writeOk` says
        whether `saveEpisodes` finds the documents directory and encodes and writes the file; when
        it does not, the error is only printed and the saved file stays as it was. */
    method ToggleFavorite(id: int, writeOk: bool)
      modifies this
      ensures allEpisodes == Toggled(old(allEpisodes), id)
      ensures (exists k :: 0 <= k < |old(allEpisodes)| && old(allEpisodes)[k].id == id) ==>
                IsFavorite(id) == !old(IsFavorite(id))
                && (writeOk ==> savedFile == Some(allEpisodes))
                && (!writeOk ==> savedFile == old(savedFile))
      ensures (forall k :: 0 <= k < |old(allEpisodes)| ==> old(allEpisodes)[k].id != id) ==>
                savedFile == old(savedFile)
      ensures episodeGroups == old(episodeGroups) && searchText == old(searchText)
      ensures storedCriterion == old(storedCriterion)
    {
      var index := FirstIndexWhere(allEpisodes, HasId(id));
      if index.Some? {
        var i := index.value;
        ToggleFlipsFlag(allEpisodes, id);
        allEpisodes := allEpisodes[i := allEpisodes[i].(isFavorite := !allEpisodes[i].isFavorite)];
        if writeOk {
          savedFile := Some(allEpisodes);
        }
      }
    }
  }
}
