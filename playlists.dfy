/** The playlist grid's category tabs: the category "all" shows every
    playlist, any other category shows the playlists of that category in
    their original order.
 */
module Playlists {

  /** A playlist card; title, artwork, track count and the like are display
      only and not modelled. */
  datatype Playlist = Playlist(id: int, category: string)

  /** The tab that shows every playlist. */
  const AllCategory: string := "all"

  /** The tab identifiers, in the order the tabs are shown: "all" first, and
      no identifier twice (each one keys a tab button). */
  function TabCategories(): (tabs: seq<string>)
    ensures |tabs| == 4 && tabs[0] == AllCategory
    ensures forall i, j :: 0 <= i < j < |tabs| ==> tabs[i] != tabs[j]
  {
    ["all", "personal", "shared", "ai"]
  }

  /** The playlists the section lists: four, with pairwise distinct ids (each
      one keys a card). */
  function SamplePlaylists(): (s: seq<Playlist>)
    ensures |s| == 4
    ensures forall i, j :: 0 <= i < j < |s| ==> s[i].id != s[j].id
  {
    [ Playlist(1, "personal"), Playlist(2, "personal"), Playlist(3, "shared"), Playlist(4, "ai") ]
  }

  /** r can be obtained from s by deleting elements, keeping the order of the
      rest (greedy matching of r against s). */
  predicate IsSubsequence<T(==)>(r: seq<T>, s: seq<T>)
    decreases |s|
  {
    if |r| == 0 then true
    else if |s| == 0 then false
    else if r[0] == s[0] then IsSubsequence(r[1..], s[1..])
    else IsSubsequence(r, s[1..])
  }

  /** The playlists of s whose category is `category`, in order. */
  function OfCategory(s: seq<Playlist>, category: string): (r: seq<Playlist>)
    ensures |r| <= |s|
    ensures forall p :: p in r ==> p in s && p.category == category
    ensures forall p :: p in s && p.category == category ==> p in r
    decreases |s|
  {
    if |s| == 0 then []
    else if s[0].category == category then [s[0]] + OfCategory(s[1..], category)
    else OfCategory(s[1..], category)
  }

  /** The kept playlists appear in the input's order. */
  lemma {:induction false} OfCategoryIsSubsequence(s: seq<Playlist>, category: string)
    ensures IsSubsequence(OfCategory(s, category), s)
    decreases |s|
  {
    if |s| > 0 {
      OfCategoryIsSubsequence(s[1..], category);
      var rest := OfCategory(s[1..], category);
      if s[0].category == category {
        assert ([s[0]] + rest)[1..] == rest;
      } else {
        SubsequenceOfTail(rest, s);
      }
    }
  }

  /** Dropping the head of s keeps r a subsequence when r is one of its
      tail. */
  lemma {:induction false} SubsequenceOfTail<T>(r: seq<T>, s: seq<T>)
    requires |s| > 0 && IsSubsequence(r, s[1..])
    ensures IsSubsequence(r, s)
    decreases |s|, 0
  {
    if |r| > 0 && r[0] == s[0] {
      SubsequenceDropHead(r, s[1..]);
    }
  }

  /** Removing the first element of a subsequence keeps it a subsequence. */
  lemma {:induction false} SubsequenceDropHead<T>(r: seq<T>, s: seq<T>)
    requires |r| > 0 && IsSubsequence(r, s)
    ensures IsSubsequence(r[1..], s)
    decreases |s|, 1
  {
    if |s| > 0 && r[0] != s[0] {
      SubsequenceDropHead(r, s[1..]);
      SubsequenceOfTail(r[1..], s);
    } else if |s| > 0 && |r| > 1 {
      SubsequenceOfTail(r[1..], s);
    }
  }

  /** Each playlist occurs in the result as often as in the input when it has
      the category, and not at all otherwise. */
  lemma {:induction false} OfCategoryCounts(s: seq<Playlist>, category: string, p: Playlist)
    ensures multiset(OfCategory(s, category))[p] ==
      if p.category == category then multiset(s)[p] else 0
    decreases |s|
  {
    if |s| > 0 {
      OfCategoryCounts(s[1..], category, p);
      assert s == [s[0]] + s[1..];
    }
  }

  /** The playlists the grid shows for the selected tab. */
  function Filter(playlists: seq<Playlist>, selected: string): (r: seq<Playlist>)
    ensures selected == AllCategory ==> r == playlists
    ensures selected != AllCategory ==> forall p :: p in r ==> p.category == selected
    ensures forall p :: p in playlists && p.category == selected ==> p in r
    ensures IsSubsequence(r, playlists)
    ensures |r| <= |playlists|
  {
    if selected == AllCategory then
      SubsequenceOfSelf(playlists);
      playlists
    else
      OfCategoryIsSubsequence(playlists, selected);
      OfCategory(playlists, selected)
  }

  /** Every sequence is a subsequence of itself. */
  lemma {:induction false} SubsequenceOfSelf<T>(s: seq<T>)
    ensures IsSubsequence(s, s)
    decreases |s|
  {
    if |s| > 0 {
      SubsequenceOfSelf(s[1..]);
    }
  }

  /** A tab other than "all" that no playlist carries shows nothing, and a
      tab that shows nothing is carried by no playlist. */
  lemma EmptyIffNoPlaylistOfCategory(playlists: seq<Playlist>, selected: string)
    requires selected != AllCategory
    ensures Filter(playlists, selected) == [] <==>
      forall p :: p in playlists ==> p.category != selected
  {
    var r := Filter(playlists, selected);
    if |r| > 0 {
      assert r[0] in r;
    }
  }

  /** For a tab other than "all", the shown playlists are exactly those of the
      category, each as often as in the input. */
  lemma FilterCounts(playlists: seq<Playlist>, selected: string, p: Playlist)
    requires selected != AllCategory
    ensures multiset(Filter(playlists, selected))[p] ==
      if p.category == selected then multiset(playlists)[p] else 0
  {
    OfCategoryCounts(playlists, selected, p);
  }

  /** Every sample playlist belongs to one of the tabs other than "all", so
      each of those tabs shows at least one playlist. */
  lemma SampleCategoriesAreTabs()
    ensures forall p :: p in SamplePlaylists() ==> p.category in TabCategories()[1..]
    ensures forall k :: 1 <= k < |TabCategories()| ==> Filter(SamplePlaylists(), TabCategories()[k]) != []
  {
    var s := SamplePlaylists();
    assert s[0].category == TabCategories()[1] && s[2].category == TabCategories()[2] && s[3].category == TabCategories()[3];
    assert forall k :: 1 <= k < |TabCategories()| ==> exists p :: p in s && p.category == TabCategories()[k];
  }

  /** On the section's own playlists, each tab shows these ids. */
  lemma SampleTabs()
    ensures Filter(SamplePlaylists(), "all") == SamplePlaylists()
    ensures Filter(SamplePlaylists(), "personal") == [Playlist(1, "personal"), Playlist(2, "personal")]
    ensures Filter(SamplePlaylists(), "shared") == [Playlist(3, "shared")]
    ensures Filter(SamplePlaylists(), "ai") == [Playlist(4, "ai")]
  {
    var s := SamplePlaylists();
    assert s[1..][1..][1..][1..] == [];
  }
}
