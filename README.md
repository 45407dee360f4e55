# mmmusic ordering engine and playlist helpers, modelled in Dafny

mmmusic builds Spotify playlists. Its track-ordering engine comes in three revisions: `shuffling.py`, `music_tools/shuffling.py` and `lib/shuffling.py`. Each revision orders a pool of tracks with `quick_pick`. This recursive bipartitioner works as follows:

- it shuffles the pool and picks two seeds;
- it deals every other track to a left or a right group with a pluggable picker;
- it may exchange the groups to suit a left neighbour;
- it orders each group the same way.

The root and music_tools revisions then run an optional smoothing pass. The pass walks the playlist cyclically and swaps neighbouring tracks. It uses an artist rule, a harmonic (key, mode) rule and a similarity tie-break. `smart_shuffle` dispatches on a mode name.

Around the engine sit smaller pieces, each its own module here:

- the combinable list operations (`&` composition, `|` union) and their display names;
- how a playlist config derives its processor and description;
- the processor and filter builders with their bounds, names, prefix truncation and sorts;
- the similarity ordering;
- `take_x_at_a_time` chunking;
- the release-date validator;
- the key and mode tables;
- a memoising cache;
- the genre grouping and overlap maps;
- two artist-graph programs: `connect_artists.py`'s `expand`/`trim` and the breadth-first `Finder`.

Several things are abstracted rather than computed:

- Floating-point scores, similarities and distances are oracles passed in, and so are the story, balanced and genre-story pickers built on them.
- The random shuffle is any function that returns a permutation of its argument.
- Spotify lookups (artists, related artists, albums, audio features) are functions passed in.
- Regular-expression full matching is a predicate passed in.

Code that updates state in place becomes imperative Dafny:

- the seed removal and dealing loop, the smoothing loop and the `Counter` tallies are loops with invariants;
- the smoothing pass is also modelled in place on an array;
- the memo table is a class;
- the `Finder` is a class whose `expand` rewrites its fields;
- the graph loops work on a graph value, because the source copies each graph first.

Module `Wrappers` holds the `Option`/`Result` types and names the source's exceptions. `Lists` holds the sequence helpers: comprehension, counting, `max`/`min` with a key, and union in first-occurrence order. `PyStrings` holds Python's string ordering and `str.join`.

## Model

| member | source | states |
|---|---|---|
| Albums.Split | mmmusic/models/albums.py:27 | `str.split` always yields at least one field, and no field contains the separator |
| Albums.SplitFieldCount | mmmusic/models/albums.py:27-29 | a split has exactly one more field than the string has separators |
| Albums.JoinSplit | mmmusic/models/albums.py:27-30 | joining the fields of a split with the same separator gives back the original string |
| Albums.SplitJoin | mmmusic/models/albums.py:27-30 | splitting a join gives back the fields, provided no field holds the separator |
| Albums.SplitAtSeparator | mmmusic/models/albums.py:27 | a separator between two strings splits into the fields of the left part followed by those of the right |
| Albums.SplitWithoutSeparator | mmmusic/models/albums.py:27-29 | a string with no separator is one field, itself |
| Albums.NoOccurrencesIff | mmmusic/models/albums.py:27-29 | a string has zero dash occurrences exactly when it contains no dash |
| Albums.JoinSnoc | mmmusic/models/albums.py:30 | joining fields with one more field appended adds the separator and that field at the end |
| Albums.JoinConsChar | mmmusic/models/albums.py:30 | prefixing the first field with a character prefixes the joined string with it |
| Albums.OccurrencesConcat | mmmusic/models/albums.py:27-29 | separator counts add up over a concatenation |
| Albums.Padding | mmmusic/models/albums.py:30 | `["01"] * k` has length k and holds only "01" |
| Albums.CoerceToFullDate | mmmusic/models/albums.py:22-32 | a non-string value passes through unchanged; a string without a dash gets "-01-01", one with a single dash gets "-01", one with two or more dashes is returned as it is; every padded result starts with the input and has exactly three fields |
| Albums.PaddedJoin | mmmusic/models/albums.py:29-30 | the padding join is the input with "-01" appended twice (one field) or once (two fields), begins with the input, and splits into three fields |
| Albums.JoinPadTwice | mmmusic/models/albums.py:30 | a lone field joined with two "01" paddings is the field followed by "-01-01" |
| Albums.JoinPadOnce | mmmusic/models/albums.py:30 | two fields joined with one "01" padding are their join followed by "-01" |
| Albums.CoerceMonthExample | tests/test_models_albums.py:17-31 | the test's "1981-12" release date becomes "1981-12-01" |
| Albums.CoerceYearExample | mmmusic/models/albums.py:29-30 | "1981" becomes "1981-01-01" |
| Albums.CoerceFullDateExample | mmmusic/models/albums.py:32 | a full "1981-12-01" is left as it is |
| MusicTheory.IndexOf | mmmusic/music_theory.py:19-24 | tuple `index`: succeeds exactly when the name is in the table, and returns the first position holding it; otherwise ValueError |
| MusicTheory.IndexOfDistinct | mmmusic/music_theory.py:1-16 | in a table without repetitions every entry is found at its own position |
| MusicTheory.SpotifyFriendlyKey | mmmusic/music_theory.py:1-20 | a key name is accepted exactly when it is in `KEYS`, its index lies in 0..11 and `KEYS[index]` is the name; anything else is a ValueError |
| MusicTheory.SpotifyFriendlyMode | mmmusic/music_theory.py:16-24 | a mode name is accepted exactly when it is in `MODES`, with index 0 or 1; anything else is a ValueError |
| MusicTheory.KeysDistinct | mmmusic/music_theory.py:1-14 | the key table has no repeated name |
| MusicTheory.KeyRoundTrip | mmmusic/music_theory.py:1-20 | looking up `KEYS[i]` gives back `i` for every index 0..11 |
| MusicTheory.KeyLookupInjective | mmmusic/music_theory.py:19-20 | two key names with the same index are the same name |
| MusicTheory.ModeEncoding | mmmusic/music_theory.py:16-24 | "minor" is 0, "major" is 1, and a differently cased "Major" is rejected |
| MusicTheory.KeyEncodingExamples | mmmusic/music_theory.py:1-20 | "C" is 0, "F♯/G♭" is 6 and "B" is 11 |
| Utils.PyDivMod | mmmusic/utils.py:3 | Python's `divmod`: quotient times divisor plus remainder is the dividend, and the remainder lies between 0 and the divisor, on the divisor's side |
| Utils.PySlice | mmmusic/utils.py:5 | a slice with in-range bounds is the sub-sequence between them; one whose end does not pass its start is empty |
| Utils.TakeXAtATime | mmmusic/utils.py:1-5 | a zero size is exactly the case that fails (ZeroDivisionError from `divmod`); every other size yields chunks |
| Utils.ChunkRangeIsCeiling | mmmusic/utils.py:3-4 | for a positive size the number of chunks is the ceiling of n/x: the least count whose chunks cover all n items |
| Utils.NegativeSizeGivesNoChunks | mmmusic/utils.py:3-4 | a negative size gives an empty range and so no chunks |
| Utils.EmptyGivesNoChunks | mmmusic/utils.py:2-4 | an empty input yields no chunks for any non-zero size |
| Utils.ChunkAt | mmmusic/utils.py:4-5 | chunk i starts at i·x inside the list and holds the next x items, cut short at the end |
| Utils.ChunkStart | mmmusic/utils.py:4-5 | every chunk starts inside the list |
| Utils.ChunksConcatenateToItems | mmmusic/utils.py:1-5 | concatenating all chunks gives back the list of items |
| Utils.FlattenSlices | mmmusic/utils.py:5 | consecutive slices from the start of the list, concatenated, give the prefix up to the last bound |
| Utils.ChunkSizes | mmmusic/utils.py:3-5 | there are ceil(n/x) chunks; every one but the last holds x items; the last holds n mod x items, or x when that is zero |
| Utils.FullChunk | mmmusic/utils.py:5 | a chunk before the last holds exactly x items |
| Utils.LastChunk | mmmusic/utils.py:3-5 | the last chunk holds n mod x items, or x when that is zero |
| Utils.TakeXAtATimeExample | mmmusic/utils.py:1-5 | seven items three at a time give [1,2,3], [4,5,6], [7] |
| Operations.NewOperation | mmmusic/models/operations.py:10-22 | the operation is the wrapped function; the display name is the explicit one when given and the function's own name otherwise |
| Operations.And | mmmusic/models/operations.py:27-34 | `(a & b)(x)` is `b(a(x))`, and the name is "<a> & <b>" |
| Operations.Or | mmmusic/models/operations.py:36-43 | `(a or b)(x)` (the `__or__` operator) holds exactly the elements of `a(x)` and `b(x)`, each once, and the name is the two names joined by a bar inside parentheses |
| Operations.AndAssociative | mmmusic/models/operations.py:27-34 | chaining is associative both in what it computes and in the name it builds |
| Operations.OrCommutesAsSet | mmmusic/models/operations.py:36-38 | as a set, `a.__or__(b)` and `b.__or__(a)` give the same elements |
| Operations.OrIdempotentAsSet | mmmusic/models/operations.py:36-38 | `a.__or__(a)` holds exactly what `a` does, and as many elements when `a` yields no repetitions |
| Operations.DistinctSameElementsSameLength | mmmusic/models/operations.py:38 | two repetition-free lists with the same elements have the same length |
| Operations.DistinctCardinality | mmmusic/models/operations.py:38 | a repetition-free list has as many elements as its set |
| Operations.Combinable | mmmusic/models/operations.py:63-77 | with a function, `combinable` returns an operation named by the explicit name or else the function's name; without one it returns a decorator |
| Operations.DecoratorFormsAgree | mmmusic/models/operations.py:63-77 | the decorator applied to `f` builds the same operation as `combinable(f)`, and with no name it takes `f`'s own name (tests/test_models_operations.py:65-71) |
| Operations.IsOdd | tests/test_models_operations.py:8-10 | the test's `is_odd` keeps only odd numbers and never lengthens the list |
| Operations.OddsFromFilters | tests/test_models_operations.py:9-10 | the odd numbers from position k on are the filter by oddness of the list's suffix from k |
| Operations.IsOddFilters | tests/test_models_operations.py:9-10 | `is_odd` is exactly the filter of the list by oddness, order kept |
| Operations.OddsFrom | tests/test_models_operations.py:8-10 | the odd numbers from a position on are all odd and no more than the numbers left |
| Operations.Squared | tests/test_models_operations.py:12-14 | squaring keeps the length of the list, and each element is the square of the number at the same position |
| Operations.ChainedNames | tests/test_models_operations.py:15-21 | chained names read "is_odd & squared", then "is_odd & squared & sorted" |
| Operations.OddsOfSampleTail | tests/test_models_operations.py:23 | the odd numbers of the sample's last five entries are 1 and 9 |
| Operations.OddsOfSample | tests/test_models_operations.py:23-25 | `is_odd` of the sample is [5, 3, 7, 1, 9] |
| Operations.SquaresOfOdds | tests/test_models_operations.py:25 | squaring those gives [25, 9, 49, 1, 81] |
| Operations.SquaredOddsExample | tests/test_models_operations.py:23-25 | `(is_odd & squared)(sample)` is [25, 9, 49, 1, 81], as the chained-operation test expects |
| PlaylistConfigs.ApplyInOrderSnoc | mmmusic/models/playlist_configs.py:23 | running one more processor after a list of processors applies it to their result |
| PlaylistConfigs.JoinNamesSnoc | mmmusic/models/playlist_configs.py:23-31 | one more processor adds " & " and its name at the end of the joined names |
| PlaylistConfigs.ReduceAndIsSequential | mmmusic/models/playlist_configs.py:23 | the left fold of `&` runs the processors in list order, and its display name is their names joined by " & " |
| PlaylistConfigs.CombinedProcessorOf | mmmusic/models/playlist_configs.py:17-23 | there is no combined processor exactly when the list is empty; otherwise it applies the processors first to last and is named after all of them |
| PlaylistConfigs.FilledDescription | mmmusic/models/playlist_configs.py:25-32 | an explicit description is kept; a missing one becomes "" without processors and the " & "-joined processor names with them |
| PlaylistConfigs.PlaylistConfig.constructor | mmmusic/models/playlist_configs.py:10-33 | a new config keeps its id, name and processors, and its description is the filled-in one |
| PlaylistConfigs.PlaylistConfig.CombinedProcessor | mmmusic/models/playlist_configs.py:17-23 | the config's combined processor is the fold of its own processor list (properties under `CombinedProcessorOf`) |
| PlaylistConfigs.PlaylistConfig.FillInDescription | mmmusic/models/playlist_configs.py:25-33 | the validator sets the description field to the filled-in description of the old one and touches nothing else |
| Cache.InsertByName | cache.py:7 | inserting a keyword item adds exactly that item to the list's contents |
| Cache.InsertKeepsSorted | cache.py:7 | inserting an item with a new name into a name-sorted list keeps it sorted |
| Cache.SortByName | cache.py:7 | `sorted(kwargs.items())` is a permutation of the items |
| Cache.SortByNameSorted | cache.py:7 | with distinct keyword names (as Python guarantees) the result is strictly increasing by name |
| Cache.SortedByNameUnique | cache.py:7 | two name-sorted lists holding the same items are identical |
| Cache.KeywordTuples | cache.py:7 | each keyword item becomes the `(name, value)` tuple at the same position |
| Cache.DefaultKey | cache.py:6-7 | the key starts with the positional arguments, in order, followed by one entry per keyword argument |
| Cache.KeywordOrderIrrelevant | cache.py:6-7 | two calls passing the same keyword arguments in different orders get the same default key |
| Cache.Cache.constructor | cache.py:11-14 | a new cache has an empty table, the default key function, the given wrapped function and no calls made |
| Cache.Cache.Call | cache.py:16-20 | a new key calls the wrapped function once and stores its result; a key already present returns the stored value, calls nothing and leaves the table as it was; no existing entry is ever changed; every entry is the wrapped function's result on arguments with that key, so when equal keys mean equal results, the returned value is the function's result |
| Cache.Cache.WithKeyFunc | cache.py:28-34 | a fresh cache like the constructor's, with only the key function replaced |
| Cache.RepeatedCallHits | cache.py:16-20 | two calls with the same arguments return the same value and call the wrapped function at most once between them |
| PyStrings.StringLessIrreflexive | mmmusic/processors.py:19 | no string sorts before itself |
| PyStrings.StringLessTransitive | mmmusic/processors.py:19 | Python's string order is transitive |
| PyStrings.StringLessTotal | cache.py:7 | of two different strings one sorts before the other |
| PyStrings.StringLessAsymmetric | cache.py:7 | two strings never sort before each other |
| PyStrings.JoinWithSnoc | mmmusic/processors.py:22-24 | joining one more part adds the separator and that part at the end |
| PyStrings.InsertString | mmmusic/processors.py:19 | inserting a name adds exactly that name to the list's contents |
| PyStrings.InsertStringKeepsSorted | mmmusic/processors.py:19 | inserting into a sorted list keeps it sorted |
| PyStrings.SortStrings | mmmusic/processors.py:19 | `sorted(names)` is a permutation of the names |
| PyStrings.SortStringsSorted | mmmusic/processors.py:19 | `sorted(names)` is in non-decreasing string order |
| PyStrings.SortedStringsUnique | mmmusic/processors.py:19 | two sorted lists holding the same strings are identical |
| PyStrings.SortedHeadsAgree | mmmusic/processors.py:19 | two sorted lists holding the same strings begin with the same string |
| PyStrings.SortedTail | mmmusic/processors.py:19 | the tail of a sorted list is sorted |
| PyStrings.SortStringsOrderIndependent | mmmusic/processors.py:17-19 | the sorted names depend only on which names there are, not on the order the artists were passed in |
| PyStrings.IntToString | mmmusic/processors.py:100-122 | `str` of an integer is never empty |
| PyStrings.DigitCharReads | mmmusic/processors.py:100-122 | each digit character is a digit and reads back as its value |
| PyStrings.IntToStringDigits | mmmusic/processors.py:100-122 | `str` of a non-negative integer is decimal digits with no leading zero (except for 0 itself) that read back as the integer; of a negative one it is `-` followed by `str` of its absolute value |
| Ordering.InsertDescending | mmmusic/playlists/ordering/ordering.py:18 | inserting a track adds exactly that track to the list's contents |
| Ordering.SortDescending | mmmusic/playlists/ordering/ordering.py:18 | `sorted(..., reverse=True)` is a permutation of its input |
| Ordering.InsertKeepsSortedDescending | mmmusic/playlists/ordering/ordering.py:18 | inserting into a list of non-increasing keys keeps the keys non-increasing |
| Ordering.SortDescendingSorted | mmmusic/playlists/ordering/ordering.py:18 | the sorted list has non-increasing keys |
| Ordering.InsertRespectsOrderOfEquals | mmmusic/playlists/ordering/ordering.py:18 | an inserted element goes before every element of equal key already there |
| Ordering.SortDescendingStable | mmmusic/playlists/ordering/ordering.py:18 | the sort is stable: the elements of any one key appear in their input order |
| Ordering.WithKeyCons | mmmusic/playlists/ordering/ordering.py:18 | the elements with a given key of a list with one more element in front are that element, if its key matches, followed by those of the rest |
| Ordering.BySimilarity | mmmusic/playlists/ordering/ordering.py:7-18 | the output is a permutation of the tracks |
| Ordering.BySimilarityOrders | mmmusic/playlists/ordering/ordering.py:12-18 | the output is ordered by non-increasing similarity to the seed, with scores computed over the tracks and the seed together; tracks of equal similarity keep their input order; the seed is in the output exactly when it was among the tracks |
| Processors.ResolveAll | mmmusic/processors.py:17 | each argument is resolved with `get_artist`, position by position |
| Processors.NamesOf | mmmusic/processors.py:19 | the names of the artists, position by position |
| Processors.ExclusionDisplayName | mmmusic/processors.py:21-25 | one name reads "not by <a>", two read "not by <a> or <b>", three or more are comma-separated with "or " before the last |
| Processors.ExclusionDisplayNameOfOneOrTwo | mmmusic/processors.py:21-23 | "not by Björk" and "not by Blur or Oasis" |
| Processors.ExclusionDisplayNameOfThree | mmmusic/processors.py:21-24 | "not by Blur, Oasis, or Pulp" |
| Processors.DistinctTail | mmmusic/processors.py:17 | in a list without repetitions the head does not recur and the tail has none |
| Processors.NamedArtistsSplit | mmmusic/processors.py:17-19 | the artists bearing a name are the head, when it bears it, plus those of the tail |
| Processors.DistinctNamesMembership | mmmusic/processors.py:17-19 | a name is among the sorted distinct names exactly when some excluded artist bears it |
| Processors.NameCountIsArtistCount | mmmusic/processors.py:17-19 | in a list without repeated artists, a name occurs as often as there are artists bearing it |
| Processors.DistinctNameCount | mmmusic/processors.py:17-19 | after removing repeated artists, naming and sorting, each name occurs once per distinct excluded artist bearing it |
| Processors.ExcludedNames | mmmusic/processors.py:17-19 | the names are sorted, are exactly the names of the excluded artists, and each occurs once per distinct excluded artist with that name |
| Processors.ExcludeArtistsAsWritten | mmmusic/processors.py:13-33 | the builder as written: no artists raises ValueError, any other call gives the operation named after the sorted names, filtering on the object-against-string intersection of line 30 |
| Processors.ExcludeArtistsAsWrittenKeepsEverything | mmmusic/processors.py:17-30 | as written, the filter returns every track unchanged, because an artist-id string never equals an `Artist` object |
| Processors.ExcludeArtistsAsWrittenCounterexample | mmmusic/processors.py:17-30 | excluding Björk keeps her track "Jóga" |
| Processors.ExcludeArtists | mmmusic/processors.py:13-33 | no artists raises ValueError; otherwise the name is built from the sorted names, and a track is kept exactly when none of its artist ids is the id of an excluded artist |
| Processors.ExcludeArtistsDropsTheirTracks | mmmusic/processors.py:28-31 | with ids compared, excluding Björk drops "Jóga" |
| Processors.ExcludeArtistsKeepsOrder | mmmusic/processors.py:29-31 | the kept tracks are a subsequence of the input, in input order |
| Processors.BoundedFeatureDisplayName | mmmusic/processors.py:269-287 | no bound raises ValueError; an upper bound only gives "<f> <= hi", a lower bound only "<f> >= lo", both "lo <= <f> <= hi", with strict signs when not inclusive |
| Processors.BoundedFeatureDisplayNameExamples | mmmusic/processors.py:279-287 | "popularity <= 50" and "2 < energy < 8" |
| Processors.FilterKeepsInOrder | mmmusic/processors.py:69-75 | a list comprehension over the tracks keeps the passing tracks in their order, each as often as in the input, and drops the rest |
| Processors.FilterByArtistAttribute | mmmusic/processors.py:36-77 | no bound raises ValueError; otherwise the name is the bounded-feature name of "artist <attr>", and a track is kept exactly when every one of its artists has the attribute in range, a missing bound being unbounded; kept tracks stay in order with their multiplicity |
| Processors.FilterByTrackAttribute | mmmusic/processors.py:148-183 | no bound raises ValueError; otherwise a track is kept exactly when its popularity, the track model's only numeric attribute, is in range, inclusive or strict as asked; kept tracks stay in order with their multiplicity |
| Processors.FilterByAudioFeature | mmmusic/processors.py:186-221 | no bound raises ValueError; otherwise a track is kept exactly when its audio feature is in range; kept tracks stay in order with their multiplicity |
| Processors.InclusiveBoundsAdmitEnds | mmmusic/processors.py:59-65 | inclusive bounds admit both end points, exclusive bounds neither |
| Processors.ArtistsOf | mmmusic/processors.py:88 | the artists looked up for a track, one per artist id, in order |
| Processors.HasGenreMatchingMeans | mmmusic/processors.py:86-89 | the genre-pattern test holds exactly when some artist of the track has a genre that full-matches the pattern |
| Processors.CreditOf | mmmusic/processors.py:88 | each looked-up artist comes from one of the track's artist ids |
| Processors.LookedUpArtist | mmmusic/processors.py:88 | each artist id of the track is looked up into the list |
| Processors.FilterByGenrePattern | mmmusic/processors.py:80-92 | named "genre matches '<pattern>'"; a track is kept exactly when one of its artists has a matching genre |
| Processors.FilterByNumberOfTracks | mmmusic/processors.py:95-104 | named "no. tracks = <n>"; without sampling the result is a prefix of the tracks of length min(n, len) |
| Processors.FilterByReleaseYear | mmmusic/processors.py:107-133 | no year raises ValueError; the name reads "released between", "before" or "after"; a track is kept exactly when start <= album year < end, a missing year being unbounded |
| Processors.ReleaseYearEndIsExclusive | mmmusic/processors.py:130 | the start year is kept and the end year is not |
| Processors.KeyIndexMeans | mmmusic/processors.py:225-229 | a track's key equals the looked-up index exactly when the key table names that key at the track's index |
| Processors.FilterByKey | mmmusic/processors.py:224-231 | an unknown key name raises ValueError; otherwise named "key is <key>", it keeps exactly the tracks whose key index names the given key, in order and with their multiplicity |
| Processors.FilterByMode | mmmusic/processors.py:234-241 | an unknown mode raises ValueError; otherwise named "mode is <mode>", it keeps exactly the tracks of that mode, in order and with their multiplicity |
| Processors.OrderByPopularity | mmmusic/processors.py:244-250 | named "ordered by popularity"; the result is a permutation of the tracks |
| Processors.OrderByPopularitySortsStably | mmmusic/processors.py:246-250 | the result has non-increasing popularity, and tracks of equal popularity keep their input order |
| Processors.OrderBySimilarityToTrack | mmmusic/processors.py:253-266 | named "ordered by similarity to '<name>'"; on every call the tracks are rescored together with the seed, and the result is a permutation of them in non-increasing similarity to the seed, equal similarities keeping their input order |
| Processors.FilterBySimilarityToTrack | mmmusic/processors.py:136-145 | named "<n> tracks most similar to '<name>'"; the result is a prefix of length min(n, len) of the tracks ordered by similarity to the seed |
| Filters.ByTrackAttribute | mmmusic/filters.py:105-111 | a track is in the result exactly when it is in the input and passes the predicate |
| Filters.ByTrackAttributeKeepsOrder | mmmusic/filters.py:108-109 | the result is a subsequence of the input, and each passing track keeps all of its copies while each failing one has none |
| Filters.ByAlbumAttribute | mmmusic/filters.py:13-21 | a track is kept exactly when its album passes the predicate |
| Filters.ByArtistAttribute | mmmusic/filters.py:24-37 | a track is kept exactly when every one of its artists passes |
| Filters.ArtistlessTrackIsKept | mmmusic/filters.py:31-34 | a track with no artists is kept vacuously |
| Filters.ByScale | mmmusic/filters.py:54-64 | an unknown key or mode name raises ValueError; otherwise a track is kept exactly when both its key and its mode match the looked-up indices |
| Filters.ByScaleCMajor | mmmusic/filters.py:54-64 | C major keeps exactly the tracks with key 0 and mode 1 |
| Filters.ByNumberOfTracks | mmmusic/filters.py:67-75 | without sampling the result is a prefix of the input of length min(n, len) |
| Filters.ByReleaseYear | mmmusic/filters.py:78-93 | a track is kept exactly when its album is not a compilation and start <= year <= end, a missing year being unbounded |
| Filters.ReleaseYearIsInclusive | mmmusic/filters.py:89-91 | an album of the end year is kept, and a compilation is dropped even with no bounds |
| Filters.BySimilarityToTrack | mmmusic/filters.py:96-102 | the tracks are rescored together with the seed on every call; the result is a permutation of them with non-increasing similarity to the seed, equal similarities keeping their input order |
| Lists.Filter | mmmusic/filters.py:108-109 | a comprehension with a condition is no longer than its input, holds only passing elements of the input, and holds every passing element |
| Lists.FilterIsSubsequence | mmmusic/filters.py:108-109 | a filtered list is a subsequence of its input |
| Lists.SubsequenceSkip | mmmusic/filters.py:108-109 | a subsequence of a list's tail is a subsequence of the list |
| Lists.SubsequenceTail | mmmusic/filters.py:108-109 | dropping the first element of a subsequence leaves a subsequence |
| Lists.FilterMultiplicity | mmmusic/filters.py:108-109 | a passing element occurs as often in the result as in the input, a failing one not at all |
| Lists.FilterConcat | mmmusic/filters.py:108-109 | filtering distributes over concatenation |
| Lists.FilterAll | mmmusic/filters.py:108-109 | a filter that every element passes returns its input |
| Lists.CountIf | shuffling.py:96-108 | a conditional count is at most the length, and is zero exactly when no element passes |
| Lists.CountIfConcat | shuffling.py:96-108 | conditional counts add up over a concatenation |
| Lists.CountIfAll | shuffling.py:96-108 | when every element passes, the count is the length |
| Lists.Flatten | mmmusic/utils.py:5 | an element is in the concatenation of the lists exactly when it is in one of them |
| Lists.FlattenConcat | mmmusic/utils.py:5 | concatenation of lists distributes over joining the outer lists |
| Lists.Dedup | mmmusic/models/operations.py:38 | the result holds exactly the input's elements, each once |
| Lists.Union | mmmusic/models/operations.py:38 | the result holds exactly the elements of either list, each once |
| Lists.DedupFrom | mmmusic/models/operations.py:38 | the result holds exactly the elements of the input not already seen, each once |
| Lists.PyPrefix | mmmusic/processors.py:102 | Python's `s[:n]` is a prefix of length min(n, len) for n >= 0 and all but the last -n elements for negative n |
| Lists.ArgMaxIndex | lib/shuffling.py:128-130 | Python's `max(key=...)` picks an element of greatest key, the first such one |
| Lists.ArgMinIndex | lib/shuffling.py:134 | Python's `min(key=...)` picks an element of least key, the first such one |
| Lists.ArgMinOfComplement | shuffling.py:263-278 | the first element of least `1 - key` is the first element of greatest `key` |
| Lists.ArgMaxOfComplement | shuffling.py:263-278 | the first element of greatest `1 - key` is the first element of least `key` |
| Lists.ConstantKeyPicksFirst | music_tools/shuffling.py:240-255 | when every key ties, `min` and `max` both pick the first element |
| QuickPick.RemoveFirst | shuffling.py:53-54 | `list.remove(x)` removes exactly one copy of `x` |
| QuickPick.RemoveFirstRestores | shuffling.py:53-54 | putting the removed element back gives the list's elements again |
| QuickPick.SeedsValidIsSubMultiset | shuffling.py:45-54 | both seed removals succeed exactly when the two seeds, counted with multiplicity, are elements of the pool |
| QuickPick.Dealt | shuffling.py:56-60 | dealing appends every pending item to exactly one side, so the two sides end up holding the seeds and all pending items, and each side starts with what it had |
| QuickPick.Oriented | shuffling.py:62-64 | without a left neighbour the groups stay; with one the picker rejects they trade places; with one it accepts they stay |
| QuickPick.OrientedExchangesWholeGroups | shuffling.py:62-64 | the boundary correction only ever exchanges the groups whole, so no element moves between them |
| QuickPick.DealtGroupsHoldPool | shuffling.py:50-64 | after one split step the two groups together hold exactly the pool, and each holds at least its seed |
| QuickPick.Deal | shuffling.py:56-60 | the `for` loop builds the same groups as the dealing specification |
| QuickPick.ShuffledLength | shuffling.py:43 | shuffling keeps the length of the list |
| QuickPick.Split | shuffling.py:43-64 | one split step fails (ValueError) exactly when a seed `remove` fails; otherwise the two non-empty groups together hold exactly the input |
| QuickPick.SplitDealsThenOrients | shuffling.py:50-64 | a successful split is the dealt pair, each side starting with its seed, exchanged exactly when there is a left neighbour the picker would not put on the left |
| QuickPick.Bipartition | shuffling.py:38-64 | the shuffling, seeding, removal and `for` loop produce exactly the split step of the specification |
| QuickPick.QuickPicked | shuffling.py:35-71 | lists shorter than 2 come back unchanged; any result is a permutation of the input of the same length; with a seed picker whose seeds are always two elements of the pool (or none) it always succeeds, and an invalid pair of seeds is a ValueError |
| QuickPick.QuickPick | shuffling.py:35-71 | the recursion returns exactly the reference result `QuickPicked`; lists shorter than 2 come back unchanged; any result is a permutation of the input of the same length; with a seed picker whose seeds are always two elements of the pool (or none) it always succeeds, and an invalid pair of seeds is a ValueError. It recurses only on strictly shorter groups, each holding at least one seed; lib/shuffling.py:19-54 and music_tools/shuffling.py:48-81 carry the same body |
| RootShuffling.SideMatches | shuffling.py:96-108 | a side's three counts are, in order, its tracks with the candidate's key, mode and primary artist, each at most the side's size; reading the primary artist of an artistless track is exactly the IndexError case |
| RootShuffling.ScaleLe | shuffling.py:101-110 | multiplying by a positive number keeps order and equality of reals |
| RootShuffling.DivCompare | shuffling.py:101-110 | fractions compare as their cross products |
| RootShuffling.ShareWithNew | shuffling.py:101-110 | a share x/n lies in [0, 1], never drops when the candidate joins ((x+1)/(n+1)) and stays the same only when it was already 1 |
| RootShuffling.Shares | shuffling.py:101-110 | each score is the count, bumped by 0 or 1, over the side size, bumped the same |
| RootShuffling.SharesOfCounts | shuffling.py:101-110 | counts no higher than the side size give shares that grow as `ShareWithNew` states |
| RootShuffling.CategoricalScoresOf | shuffling.py:92-112 | the scores exist exactly when both sides are non-empty and every track involved has an artist; an empty left side is a ZeroDivisionError; each side's shares without and with the candidate grow as `ShareWithNew` states; each of the twelve scores is the side's key, mode or primary-artist count over the side's size, both plus one in the "with new" lists |
| RootShuffling.TotalDurationConcat | shuffling.py:190 | total durations add up over a concatenation |
| RootShuffling.LongPoolsStayGenre | shuffling.py:183-195 | once a pool is longer than three hours, adding tracks of non-negative duration keeps the genre-position picker in charge |
| RootShuffling.NonNegativeDuration | shuffling.py:190 | tracks of non-negative duration have a non-negative total |
| RootShuffling.ExactlyThreeHoursIsStory | shuffling.py:187-193 | the threshold is strict: a pool of exactly 3·3.6e6 ms goes to the story picker |
| RootShuffling.ScanForRepeatedArtist | shuffling.py:204-211 | the `artists_seen` loop reports true exactly when some track of the pool shares an artist with an earlier one |
| RootShuffling.RadioPickerChoice | shuffling.py:198-219 | radio mode uses the balanced picker when an artist recurs, otherwise the genre-position picker for pools over three hours and the story picker for the rest |
| RootShuffling.SharedArtistMeansBalanced | shuffling.py:204-231 | a pool of two tracks sharing an artist takes both the radio and the test picker to the balanced picker |
| RootShuffling.SmartStoryPick | shuffling.py:244-255 | the candidate goes to the side with strictly fewer credits of its primary artist; on a tie the story picker decides |
| RootShuffling.CountAfterAppend | shuffling.py:234-238 | appending a track raises a side's count of an artist by that track's credits of it |
| RootShuffling.SmartStoryNarrowsGap | shuffling.py:244-253 | when the counts differ and the candidate credits its primary artist once, dealing it as picked narrows the gap between the sides by exactly one |
| RootShuffling.SmartSeeds | shuffling.py:260-280 | without a neighbour the left seed is `items[0]`; with one it is an item of least distance to it, and no earlier item is as near; the right seed is an item of greatest distance from the left seed, and no earlier item is as far |
| RootShuffling.SmartSeedPickerAcceptsPools | shuffling.py:260-280 | the seed picker is defined on every pool `quick_pick` passes it |
| RootShuffling.UniformDistanceBreaksSeeds | shuffling.py:263-278 | when every item is equally far from `items[0]` and it occurs once, both seeds are `items[0]` and the second `remove` (shuffling.py:53-54) fails |
| RootShuffling.TieBreakIsAsymmetric | shuffling.py:325-331 | the distance tie-break never favours both orders of the same pair |
| RootShuffling.TieBreakFavoursLessSimilar | shuffling.py:325-331 | with distance 1 − similarity, the final rule swaps exactly when track 2 is less similar to track 0 than track 1 is, as written |
| RootShuffling.SwapRuleNeverUndoes | shuffling.py:283-331 | a triple the root rule swaps is never swapped straight back |
| RootShuffling.Dispatch | shuffling.py:368-389 | exactly the seven modes are accepted and anything else is a ValueError; only smart-story installs a seed picker; radio is the radio picker with no seed picker |
| RootShuffling.SmartShuffle | shuffling.py:368-396 | an unknown mode is a ValueError; any result is a permutation of the tracks; every mode other than smart-story always succeeds; fewer than two tracks come back unchanged; the result is the quick-pick ordering for the mode's pickers, smoothed exactly when `smooth` is true |
| Smoothing.ArtistRule | shuffling.py:284-297 | swap exactly when track 0 shares an artist with track 1 but not with track 2, keep in the reverse case, and fall through exactly when both or neither share |
| Smoothing.GoodScales | shuffling.py:301-310 | the compatible pairs are (key + offset, mode flag) for the major or minor table, with `% 12` applied to the offset only, so with no wrap-around |
| Smoothing.HarmonicRule | shuffling.py:312-323 | swap exactly when track 1 is incompatible and track 2 compatible, keep in the reverse case, otherwise fall through |
| Smoothing.SwapToSmooth | shuffling.py:283-331 | the cascade: the artist rule decides when it can, then the harmonic rule, then the revision's tie-break (music_tools/shuffling.py:260-310 has the same cascade) |
| Smoothing.NoImmediateSwapBack | shuffling.py:283-331 | with an asymmetric tie-break, a swapped triple is never swapped straight back |
| Smoothing.ScaleKeysDoNotWrap | shuffling.py:301-309 | no compatible key lies below the root key or more than 11 above it |
| Smoothing.HighRootAcceptsOnlyItself | shuffling.py:301-314 | for root key 11 the only real key the rule accepts is 11 itself, in the root's own mode |
| Smoothing.CMajorScale | shuffling.py:301-310 | C major admits keys 0, 2, 4, 5, 7, 9, 11 with modes 1, 0, 0, 1, 1, 0, 0 |
| Smoothing.HarmonicExampleSwaps | shuffling.py:312-321 | after C major, F♯ major then G major is swapped when the artist rule does not decide |
| Smoothing.MulGrows | shuffling.py:346 | a positive multiple of n is at least n |
| Smoothing.ModUnique | shuffling.py:348-350 | the remainder is determined by any decomposition with a remainder in range |
| Smoothing.ModShift | shuffling.py:348-350 | cyclic indices depend only on the index modulo the length |
| Smoothing.CoverResidue | shuffling.py:360-361 | any n consecutive indices hit every residue modulo n |
| Smoothing.SwapsAtResidue | shuffling.py:348-350 | index j and index j mod n test the same triple |
| Smoothing.WindowIsLocallySmooth | shuffling.py:360-361 | more than n consecutive rule evaluations without a swap mean that no cyclic position would be swapped |
| Smoothing.SwappedNext | shuffling.py:353-356 | exactly positions (i+1) mod n and (i+2) mod n are exchanged, and the contents are kept |
| Smoothing.SwapNext | shuffling.py:353-356 | the array becomes `SwappedNext` of its old contents |
| Smoothing.SmoothFrom | shuffling.py:346-361 | the loop from iteration i on keeps the contents and ends after at most `budget` evaluations |
| Smoothing.Smoothed | shuffling.py:334-361 | lists of length at most 2 come back unchanged with no evaluation; longer lists keep their contents and take at most 30·n − 2 evaluations |
| Smoothing.SmoothedStopsOrSwaps | shuffling.py:347-361 | a firing rule swaps the next two tracks and the loop goes on; a quiet rule more than n iterations after the last swap stops the loop |
| Smoothing.SmoothPlaylist | shuffling.py:334-365 | the result and evaluation count are exactly `Smoothed`; lists of length at most 2 come back unchanged; the result is a permutation; at most 30·n − 2 rule evaluations are made; when the loop stops early, no position would be swapped any more (music_tools/shuffling.py:313-344 is the same loop) |
| Smoothing.SmoothInPlace | shuffling.py:340-361 | on the array in place: the final array and evaluation count are exactly `SmoothFrom` of the old contents from iteration 0; the contents are kept, the count is bounded by 30·n − 2, and an early stop leaves the list locally smooth |
| MusicToolsShuffling.AnyArtistRepeats | music_tools/shuffling.py:199-203 | the Counter test reports true exactly when some artist has more than one credit in the pool |
| MusicToolsShuffling.SharedArtistRepeatsCredit | music_tools/shuffling.py:200-204 | every pool in which two tracks share an artist gives that artist more than one credit, so the balanced picker is used |
| MusicToolsShuffling.DoubleCreditOnlyCountedHere | music_tools/shuffling.py:200-204 | a lone track crediting one artist twice counts as a repeat here but not for the root revision's scan (shuffling.py:204-211) |
| MusicToolsShuffling.RadioPick | music_tools/shuffling.py:215-232 | the candidate goes to the side with strictly fewer credits of its artists; on a tie the story picker decides |
| MusicToolsShuffling.MutualCountAfterAppend | music_tools/shuffling.py:216-225 | dealing a track to a side raises that side's mutual count by its number of artist credits |
| MusicToolsShuffling.NoArtistsDefersToStory | music_tools/shuffling.py:216-232 | a candidate without artists always ties, so the story picker places it |
| MusicToolsShuffling.SmartSeeds | music_tools/shuffling.py:240-255 | without a neighbour the left seed is `items[0]`; with one it is an item most similar to it; the right seed is an item least similar to the left seed, chosen among all items, the left seed included; in both cases no earlier item ties, so a tie goes to the first item |
| MusicToolsShuffling.SmartSeedPickerAcceptsPools | music_tools/shuffling.py:240-255 | the seed picker is defined on every pool `quick_pick` passes it |
| MusicToolsShuffling.UniformSimilarityBreaksSeeds | music_tools/shuffling.py:242-253 | when every similarity to `items[0]` ties and it occurs once, both seeds are `items[0]` and the second `remove` (music_tools/shuffling.py:63-64) fails |
| MusicToolsShuffling.SeedPickersAgree | music_tools/shuffling.py:240-255 | with distance 1 − similarity, the root revision's seed picker (shuffling.py:263-278) picks the same seeds |
| MusicToolsShuffling.TieBreakIsAsymmetric | music_tools/shuffling.py:304-310 | the similarity tie-break never favours both orders of the same pair |
| MusicToolsShuffling.SwapRuleNeverUndoes | music_tools/shuffling.py:260-310 | a triple this revision swaps is never swapped straight back |
| MusicToolsShuffling.RevisionsTieBreakOppositely | music_tools/shuffling.py:304-310 | where only the tie-break decides and the similarities differ, this revision and the root one (shuffling.py:325-331) make opposite choices |
| MusicToolsShuffling.Smooths | music_tools/shuffling.py:347-369 | an explicit `smooth` is obeyed; by default every mode but radio smooths |
| MusicToolsShuffling.Dispatch | music_tools/shuffling.py:354-366 | exactly the four modes are accepted and anything else is a ValueError; only radio installs the seed picker |
| MusicToolsShuffling.SmartShuffle | music_tools/shuffling.py:347-376 | an unknown mode is a ValueError; any result is a permutation of the tracks; every mode but radio always succeeds; fewer than two tracks come back unchanged; the result is the quick-pick ordering for the mode's pickers, smoothed exactly when `smooth` is given as true or, when it is not given, when the mode is not radio |
| LibShuffling.SmartShuffle | lib/shuffling.py:141-147 | exactly `QuickPicked` with the radio picker with the smart seed picker and no smoothing: fewer than two tracks come back unchanged, any result is a permutation of the tracks, and a pair of seeds that cannot both be removed (lib/shuffling.py:38-39) is an error; the radio rule (lib/shuffling.py:94-116) and the seed picker (lib/shuffling.py:119-138) read exactly as `MusicToolsShuffling.RadioPick` and `MusicToolsShuffling.SmartSeeds` |
| Tracks.ArtistSet | shuffling.py:286-288 | `set(track.artist_ids)` holds exactly the track's artist ids |
| Tracks.ArtistCredits | lib/shuffling.py:86-91 | the credits of a single track are its own artist ids |
| Tracks.CreditedArtist | lib/shuffling.py:86-91 | an artist of any track is among the credits the `Counter` counts |
| Tracks.ArtistCreditsConcat | lib/shuffling.py:89-90 | the credits of two track lists concatenate |
| Tracks.AddCredits | lib/shuffling.py:90 | `Counter.update(ids)` turns a tally of some credits into a tally of those credits followed by the ids |
| Tracks.ArtistsOfTracks | lib/shuffling.py:86-91 | `_artists_of_tracks`: the table holds exactly the credited artists, each with its number of credits across the tracks (the same function is at shuffling.py:234-238 and music_tools/shuffling.py:187-192) |
| Genres.AllKeysMember | mmmusic/genres.py:34-36 | a key is in use exactly when some item is filed under it |
| Genres.GroupMember | mmmusic/genres.py:34-36 | in a grouping, an item is in the group of a key exactly when it is one of the items and lists that key |
| Genres.GroupsUnique | mmmusic/genres.py:30-38 | the items determine their grouping: two maps that both group them are equal |
| Genres.GroupsNonEmpty | mmmusic/genres.py:33-38 | a grouping built from a `defaultdict(set)` has no empty group |
| Genres.FileItem | mmmusic/genres.py:35-36 | the inner loop turns a grouping of the items so far into a grouping that also files the next item under each of its keys |
| Genres.GroupBy | mmmusic/genres.py:32-38 | the nested loops produce the grouping of all the items |
| Genres.GetGenreArtistsMap | mmmusic/genres.py:30-38 | `get_genre_artists_map`: the keys are exactly the artists' genres, an artist is in `map[g]` exactly when it is one of the artists and `g` is one of its genres, and no value is empty |
| Genres.GenresMatchingPattern | mmmusic/genres.py:41-45 | `genres_matching_pattern`: exactly the genres of some artist that full-match the pattern |
| Genres.ArtistsOfGenresMatching | mmmusic/genres.py:48-60 | the value the function returns: exactly the artists having at least one matching genre |
| Genres.ArtistsOfGenresMatchingPattern | mmmusic/genres.py:48-60 | `artists_of_genres_matching_pattern`: gathering the members genre by genre, in any order, yields exactly the artists having a matching genre |
| Genres.WithGenreStep | mmmusic/genres.py:57-58 | adding one matching genre's members adds exactly the artists having that genre |
| Genres.Permutations2 | mmmusic/genres.py:68 | `permutations(genres, 2)` holds exactly the ordered pairs of entries at two different positions |
| Genres.PermutationRow | mmmusic/genres.py:68 | one row of the pairs: the entry at `i` paired with each entry at another position from `j` on |
| Genres.PermutationRows | mmmusic/genres.py:68 | the rows from `i` on: the pairs whose first entry is at a position from `i` on |
| Genres.PairOfDistinctGenres | mmmusic/genres.py:68 | for two different genres, their pair occurs exactly when both genres occur |
| Genres.PermutationsSymmetric | mmmusic/genres.py:68 | a pair occurs exactly when its reverse does |
| Genres.GroupedPairsOfDistinctGenres | mmmusic/genres.py:63-71 | for different genres `x` and `y`, an artist is filed under `(x, y)` exactly when it has both |
| Genres.GroupedPairSwap | mmmusic/genres.py:63-71 | whenever `(x, y)` is a key, so is `(y, x)`, with the same artists |
| Genres.SwappedPairKey | mmmusic/genres.py:63-71 | whenever `(x, y)` is a key, so is `(y, x)` |
| Genres.SwappedPairMember | mmmusic/genres.py:63-71 | `(x, y)` and `(y, x)` hold the same artists |
| Genres.GroupedPairsSymmetric | mmmusic/genres.py:63-71 | the overlap map is symmetric in its pair keys |
| Genres.GenreOverlaps | mmmusic/genres.py:63-71 | `genre_overlaps`: the keys are the pairs taken from two different positions of an artist's genres; for different genres an artist is in the value exactly when it has both; the map is symmetric |
| LibGenres.GenresAndMembers | lib/genres.py:31-39 | `genres_and_members`: an artist is in `map[g]` exactly when it is one of the artists and `g` is one of its genres |
| LibGenres.GenresMatching | lib/genres.py:42-45 | `genres_matching`: exactly the genres of some artist that full-match the pattern |
| LibGenres.ArtistsOfGenresMatching | lib/genres.py:48-71 | without `match_individual`, exactly the artists whose comma-joined genre list full-matches (lines 58-62); with it, exactly the artists with at least one matching genre (lines 64-71) |
| LibGenres.GenreOverlaps | lib/genres.py:74-82 | `genre_overlaps` groups the artists under the ordered pairs of their genres and is symmetric in its pair keys |
| LibGenres.TouchingStep | lib/genres.py:89-91 | one more pair adds both of its genres when it holds `genre`, and nothing otherwise |
| LibGenres.TouchingOther | lib/genres.py:90 | another genre is gathered exactly when it is paired with `genre` either way round |
| LibGenres.GatherTouching | lib/genres.py:87-91 | the loop gathers exactly both genres of every pair that holds `genre` |
| LibGenres.RelatedGenres | lib/genres.py:85-93 | `related_genres` never holds the genre itself, and holds another genre exactly when some artist holds both at two different positions |
| LibGenres.PairedMeansShared | lib/genres.py:79-80 | a pair key of the genre and another genre, either way round, exists exactly when some artist holds that pair |
| LibGenres.RelatedIsSharedArtist | lib/genres.py:85-93 | for another genre, sharing an artist means that one artist lists both genres |
| Graphs.Empty | connect_artists.py:30 | `nx.Graph()` has no nodes and is a well-formed undirected graph |
| Graphs.AddNodes | connect_artists.py:31 | `add_nodes_from` adds exactly the given nodes, adds no edge, and keeps the adjacency symmetric |
| Graphs.AddEdge | connect_artists.py:72 | `add_edge(u, v)` adds both end points and exactly the edge between them, both ways round |
| Graphs.AddStar | connect_artists.py:34-36 | `add_edges_from((u, v) for v in vs)` adds exactly the edges from `u` to each of `vs`, and their end points (none when `vs` is empty) |
| Graphs.RemoveNodes | connect_artists.py:94 | `remove_nodes_from` removes exactly the given nodes and every edge at them, and keeps the adjacency symmetric |
| Graphs.RemoveNodesInduced | connect_artists.py:86-94 | removing nodes from a subgraph induced by the argument leaves a subgraph induced by it |
| Graphs.SupergraphTransitive | connect_artists.py:24-25 | containing a graph that contains the argument means containing the argument |
| ConnectArtists.Resolved | connect_artists.py:28 | `{get_artist(artist) for artist in artists}` holds the artist of every reference and nothing else |
| ConnectArtists.Expand | connect_artists.py:14-37 | `expand`: the result contains the argument graph and every given artist; its edges are exactly the argument's edges and those from a given artist to one of its related artists; its nodes are the argument's, the given artists and their related artists |
| ConnectArtists.ExpandStep | connect_artists.py:33-36 | one artist of the loop adds exactly its own edges to those already added |
| ConnectArtists.Leaves | connect_artists.py:91-93 | the nodes `trim` removes next are exactly the nodes of degree below two that are not keepers |
| ConnectArtists.CoreHasNoLeaves | connect_artists.py:91-93 | in an induced subgraph containing a core (a node set on which every non-keeper has degree at least two), no node of the core is a leaf to remove |
| ConnectArtists.TrimRoundKeepsCores | connect_artists.py:90-94 | one round of removals keeps every core of the argument graph |
| ConnectArtists.Trim | connect_artists.py:76-96 | `trim`: the result is a subgraph induced by the argument, keeps every keeper that was a node, and leaves no node other than a keeper with degree below two; it is the largest such subgraph, containing every core of the argument |
| ArtistFinder.RelatedOf | artist_finder_new.py:23 | the related artists of a frontier artist are the looked-up related ids, in order |
| ArtistFinder.Finder.constructor | artist_finder_new.py:8-17 | the starting artists are the looked-up ids; each has reached exactly itself and its frontier is itself; the graph's nodes are the starting artists, with no edge |
| ArtistFinder.Finder.Expand | artist_finder_new.py:19-27 | `expand`: for each starting artist the new frontier is the old frontier's related artists not reached before, and the reached set grows by exactly that frontier; the graph keeps its edges and gains exactly the edges walked from the old frontiers; its new nodes are exactly the related artists of the old frontiers |
| ArtistFinder.Finder.Midpoints | artist_finder_new.py:33-34 | `midpoints`: with no starting artist, `reduce` over no sets is a TypeError; otherwise exactly the artists every starting artist has reached |
| ArtistFinder.AdvanceAll | artist_finder_new.py:20-27 | the outer loop moves every starting artist on one ring and adds the walks of all the old frontiers, and as nodes exactly their related artists |
| ArtistFinder.NodeStep | artist_finder_new.py:20-25 | walking one more artist's frontier adds that frontier's ring to the nodes gathered so far |
| ArtistFinder.ProgressComplete | artist_finder_new.py:20-27 | once no artist remains, the loop invariant gives the whole of `expand`'s promise |
| ArtistFinder.ProgressInit | artist_finder_new.py:20 | before the loop no artist has moved and no walk has been added |
| ArtistFinder.AdvanceOne | artist_finder_new.py:21-27 | one turn of the outer loop moves one more artist on one ring |
| ArtistFinder.ProgressStep | artist_finder_new.py:21-27 | one artist's walk and update keep the loop invariant with that artist done |
| ArtistFinder.DoneStep | artist_finder_new.py:20 | taking one artist from those remaining adds it to those done |
| ArtistFinder.StateStep | artist_finder_new.py:26-27 | the frontier and reached-set update of one artist leaves the others as they were |
| ArtistFinder.EdgeStep | artist_finder_new.py:22-24 | the walk of one more frontier adds that frontier's edges to those already walked |
| ArtistFinder.AdvanceStep | artist_finder_new.py:26-27 | the update of one artist moves it on one ring without changing those already done |
| ArtistFinder.ReachingStep | artist_finder_new.py:24-27 | each starting artist still reaches itself and its frontier, and only nodes of the graph |
| ArtistFinder.WalkFrontier | artist_finder_new.py:21-25 | the inner loop gathers exactly one ring of related artists, adds exactly them as nodes and exactly the edges from the frontier to them |
| ArtistFinder.WalkingStep | artist_finder_new.py:22-25 | walking one more frontier artist keeps the inner loop's invariant: the ring, the node set and the edges are exactly those of the artists walked so far |
| ArtistFinder.StarNodes | artist_finder_new.py:24 | the edges from a node already in the graph add exactly their other end points as nodes |
| ArtistFinder.RingUnion | artist_finder_new.py:21-25 | the ring of a union of frontiers is the union of their rings |
| ArtistFinder.WalkStep | artist_finder_new.py:24 | walking one more frontier artist adds exactly its edges |
| ArtistFinder.WalkedEdgesCompose | artist_finder_new.py:22-24 | two walks in turn add the edges of both |
| ArtistFinder.SupergraphOfWalk | artist_finder_new.py:24 | a walk keeps every node and edge already there |
| ArtistFinder.FrontierOfStep | artist_finder_new.py:20-22 | the frontiers of one more artist add that artist's frontier |
| ArtistFinder.RingStep | artist_finder_new.py:25 | the in-place union of `related` into `new` for one more frontier artist adds exactly its related artists |

## Left out

- Floating-point numerics are not computed. This covers percentile scores, `np.average` means, cosine similarity and distance, and genre-coordinate means, including features.py, metrics.py, `_scores`, `_story_metrics` and `_get_average_values`. The story, balanced and genre-story pickers built on them are picker parameters. Similarity and distance are oracles of type `(Track, Track) -> real`. For the similarity orderings of mmmusic/playlists/ordering/ordering.py, mmmusic/processors.py and mmmusic/filters.py they take the pool the scores were computed over as well, so that each call rescores `[*tracks, seed]`.
- The random shuffle `_shuffle` is any function returning a permutation of its argument. `random.sample` in `filter_by_number_of_tracks` and `by_number_of_tracks` is not modelled: only the `tracks[:n]` branch is.
- The JSON files loaded at import time (genre positions, genre attributes) are not modelled. Neither are `get_genre_attributes_for_track` and `get_track_genre_attributes`, which only average those floating-point tables.
- Spotify and HTTP access is passed in as functions: track, album and artist lookups, related artists, and audio features. Retries, timeouts and the clients themselves are not modelled.
- `re.fullmatch` is an abstract predicate passed in. A pattern that `re.compile` rejects is not modelled.
- Pydantic's parsing of the padded release date into a `date` is not modelled. The validator's output string is.
- Processors.FilterByArtistAttribute, Processors.FilterByTrackAttribute, Processors.FilterByAudioFeature, Processors.FilterByReleaseYear: bounds, attribute values and years are integers. Float-valued attributes, bounds and years are not modelled.
- Processors.FilterByTrackAttribute: only `popularity` is modelled. An mmmusic track (mmmusic/models/tracks.py:46-55) has no other numeric attribute. `getattr` of another name such as `key`, `mode` or `duration_ms` raises AttributeError, and that error is not modelled.
- Processors.FilterByAudioFeature, Processors.FilterByKey, Processors.FilterByMode, Filters.ByScale: every track is assumed to have audio features. `Track.__getitem__` (mmmusic/models/tracks.py:58-59) indexes `audio_features`, which is None when Spotify has none (mmmusic/models/tracks.py:99-100). The TypeError raised then is not modelled.
- Processors.FilterByGenrePattern, Processors.QuotedRepr: Python's `repr` of a pattern is modelled only for strings without quotes or backslashes, which `repr` would escape.
- Operations.Or: `list(set(a(x)) | set(b(x)))` comes out in hash order, which Python does not fix. The model uses first-occurrence order and proves only the set properties and the absence of repetitions.
- mmmusic/filters.py imports `artists_of_genres_matching` from mmmusic.genres at module level (mmmusic/filters.py:4). mmmusic/genres.py defines only `artists_of_genres_matching_pattern` (mmmusic/genres.py:48), so importing mmmusic/filters.py fails with ImportError and none of its filters can run as written. The Filters module models that file as if the import succeeded. Its `by_genre_pattern`, the filter that uses the missing name, is not modelled; the processor version, `filter_by_genre_pattern`, is.
- RootShuffling.SmartStoryPick: requires a candidate with at least one artist. The picker built from it, `RootShuffling.SmartStoryPicker`, hands a candidate with no artists to the story picker. The source raises IndexError on `to_add.artist_ids[0]` there. A picker is a total boolean function here, and that IndexError cannot be raised from inside one.
- `grow`, `paths_subgraph`, `Finder.find` and all uses of networkx connectivity and path enumeration are not modelled. Neither are the matplotlib plotting and the browser calls. The variants artist_finder.py, artist_finder_alt.py and artist_finder_graph*.py are bound to plotting and repeat the same expand and trim loops.
- The graphs are values, so the in-place updates of a networkx graph and any aliasing of it are not modelled. The source copies each graph before changing it, so no caller sees those updates.
- `print` and logging calls are not modelled, including the swap count printed by `smooth_playlist`.
- `PlaylistConfig.track_source` is not modelled. It is stored and never read by the config's own logic.
- `Cache.__get__`, which binds a cached function as a method, is not modelled. Keyword arguments are modelled as a list of distinct names with their values.
- Not modelled because they add no behaviour:
  - the copies of the modelled helpers: lib/filters.py, lib/filter.py, lib/utils.py, music_tools/utils.py and mmmusic/music_tools/genres.py;
  - the Spotify memoisation wrappers in utils.py, artists.py and base_class.py;
  - the constant playlist tables.
- Integers are unbounded, as Python's are: no width or wrap-around applies.

## Findings

| source | as written | input that shows it | evidently intended | confidence | as-written member | corrected member |
|---|---|---|---|---|---|---|
| mmmusic/processors.py:30 | `exclude_artists` builds a set of `Artist` objects (line 17). The filter then intersects it with each track's artist-id strings, which never equal an `Artist`, so every track is kept | excluding the artist Björk (id "x"), whose track "Jóga" lists `artist_ids` ["x"]: the track survives | compare artist ids, and drop every track credited to an excluded artist | not executed | Processors.ExcludeArtistsAsWrittenCounterexample | Processors.ExcludeArtistsDropsTheirTracks |
