# Lyric synchronisation and playlist category filter

This project models the only two pieces of logic in a music-player web
interface.

1. The synced lyrics panel. When the playback time changes, the panel scans
   its lyric sheet from the last line backward. It picks the first line whose
   timestamp is at or before the playback time. When that line differs from
   the current active line, it makes it active and asks for it to be scrolled
   into view. The panel also works out how long the active line's underline
   highlight lasts: the gap to the next line's timestamp, or 12 for the last
   line.
2. The playlist section's category tabs. The tab `"all"` shows every
   playlist. Any other tab shows the playlists of that category, in their
   original order.

`lyrics.dfy` (module `Lyrics`) holds the lyric line record and the sample
sheet. It has a reference function `LatestStarted` (the greatest index whose
timestamp is at most the playback time) and the highlight duration. It also
has the class `LyricsPanel`, whose `Update` method runs the backward loop over
an array. `playlists.dfy` (module `Playlists`) holds the playlist record, the
sample playlists and the filter.

Times are `int`s. The component only compares and subtracts them. The
scroll-into-view request is kept as a log of the line indices it was raised
for (`LyricsPanel.scrollLog`).

## Model

| member | source | states |
|---|---|---|
| Lyrics.LatestStarted | components/lyrics-panel.tsx:44-45 | the result is the greatest index whose timestamp is at most t, or None exactly when every line starts after t |
| Lyrics.LatestStartedIsGreatest | components/lyrics-panel.tsx:44-45 | converse: an index that has started with no later line started is the one chosen, so on duplicate timestamps the last one wins |
| Lyrics.NothingStartedIff | components/lyrics-panel.tsx:44-62 | no line has started iff every timestamp exceeds t; on a sorted non-empty sheet iff t is before the first line |
| Lyrics.ExactTimestampSelectsLine | components/lyrics-panel.tsx:45 | a playback time equal to a line's timestamp selects that line, not the one before |
| Lyrics.LatestStartedMonotone | components/lyrics-panel.tsx:44-45 | a later time never resolves to an earlier line, and a seek back resolves to a line at or before the earlier one |
| Lyrics.LastLineStaysActive | components/lyrics-panel.tsx:44-45 | from the last line's timestamp on, the last line is chosen |
| Lyrics.HighlightDuration | components/lyrics-panel.tsx:94 | the duration brings a non-last line's start to the next line's start, is 12 for the last line, and is positive on a strictly increasing sheet |
| Lyrics.HighlightSpansActivity | components/lyrics-panel.tsx:94 | on a sorted sheet a non-last line is chosen exactly during its highlight duration, and the next line is chosen when it ends |
| Lyrics.NextActive | components/lyrics-panel.tsx:44-47 | after an update the active line is the latest started line, or unchanged when none has started, and it stays inside the sheet |
| Lyrics.LineChanged | components/lyrics-panel.tsx:45-46 | the scroll signal is raised exactly when the update moves the active line |
| Lyrics.LineChangedIffOtherLineStarted | components/lyrics-panel.tsx:44-58 | the scroll signal is raised exactly when some line has started and the last started line is not the active one |
| Lyrics.UpdateIdempotent | components/lyrics-panel.tsx:43-63 | repeating an update with the same time changes nothing and raises no signal |
| Lyrics.NextActiveIgnoresPrevious | components/lyrics-panel.tsx:44-46 | once a line has started, the result does not depend on the previous active line, so backward seeks resolve correctly |
| Lyrics.StepsIncreaseIsStrict | components/lyrics-panel.tsx:21-40 | timestamps that increase line by line increase between any two lines |
| Lyrics.SampleTrack | components/lyrics-panel.tsx:21-40 | the sheet exactly as listed: 18 lines, line i starting at 12·i seconds |
| Lyrics.SampleTrackStrictlyIncreasing | components/lyrics-panel.tsx:21-40 | the sample sheet's timestamps are strictly increasing |
| Lyrics.SampleTrackResolution | components/lyrics-panel.tsx:21-45 | on the sample sheet 11 s gives line 0, 12 s line 1, 1000 s line 17, -1 s no line |
| Lyrics.LyricsPanel.constructor | components/lyrics-panel.tsx:17-40 | a new panel holds the given sheet, shows line 0 and has requested no scroll |
| Lyrics.LyricsPanel.Update | components/lyrics-panel.tsx:43-63 | the backward loop sets the active line to NextActive and appends it to the scroll log exactly when it changed; the panel invariant (active line in range, every request names a line, no request repeats the one just before it, the latest request is the active line) is kept |
| Lyrics.SampleSession | components/lyrics-panel.tsx:17-63 | on the sample sheet, times 11, 12, 1000, -1, 12 give active lines 0, 1, 17, 17, 1 with scroll requests for 1, 17, 1 |
| Playlists.TabCategories | components/playlist-section.tsx:12-17 | the tab ids exactly as listed: four, "all" first, no id twice |
| Playlists.SamplePlaylists | components/playlist-section.tsx:19-62 | the playlists exactly as listed (ids and categories): four, with pairwise distinct ids |
| Playlists.OfCategory | components/playlist-section.tsx:65 | the result is no longer than the input, holds only playlists of the input with the category, and drops none of them |
| Playlists.OfCategoryIsSubsequence | components/playlist-section.tsx:65 | the kept playlists are a subsequence of the input (order kept) |
| Playlists.OfCategoryCounts | components/playlist-section.tsx:65 | each playlist of the category occurs as often as in the input, any other not at all |
| Playlists.Filter | components/playlist-section.tsx:64-65 | "all" gives the list unchanged; another tab gives only playlists of that category, drops none of them, keeps the order and is no longer than the input |
| Playlists.EmptyIffNoPlaylistOfCategory | components/playlist-section.tsx:65 | a tab other than "all" shows nothing iff no playlist carries its category |
| Playlists.FilterCounts | components/playlist-section.tsx:64-65 | for a tab other than "all" each playlist appears as often as in the input if it has the category, else never |
| Playlists.SampleCategoriesAreTabs | components/playlist-section.tsx:12-62 | every sample playlist's category is a tab other than "all", and every such tab shows something |
| Playlists.SampleTabs | components/playlist-section.tsx:19-65 | on the sample playlists "all" shows all four, "personal" ids 1 and 2, "shared" id 3, "ai" id 4 |

## Left out

- The DOM side of the scroll request is left out: the `containerRef.current` and `querySelector` checks and `scrollIntoView` (components/lyrics-panel.tsx:50-57). The model records every request in `scrollLog`, whether or not an element would have been found.
- React scheduling is not modelled. `setActiveLine` takes effect at once, and the effect re-running after it does is covered by `UpdateIdempotent`.
- Floating-point playback times are not modelled. Times are integers, since the component only compares and subtracts them.
- Rendering, framer-motion animation props and styling are left out. The highlight is only shown for the active line while playing (components/lyrics-panel.tsx:88); only its duration is modelled.
- Playlist fields other than `id` and `category` are left out because they are display only.
- The tab setter `setSelectedCategory` (components/playlist-section.tsx:80) is not modelled. It just replaces the value, and the filter takes the selected tab as a parameter.
- The album carousel, audio visualizer, recommendation panel, theme provider and page layout are left out. They are floating-point 3D placement, canvas drawing driven by randomness and the clock, static cards, and framework wrappers, with no logic to model.
