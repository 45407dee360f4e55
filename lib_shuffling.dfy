/**
 * The lib revision of the shuffling module: `smart_shuffle` is fixed to the
 * mutual-artist radio picker with the similarity seed picker, and never
 * smooths. Both rules read exactly as in the music_tools revision, so they
 * are shared from MusicToolsShuffling.
 */
module LibShuffling {
  import opened Wrappers
  import opened Tracks
  import opened QuickPick
  import MusicToolsShuffling

  /** `smart_shuffle(tracks)`: radio picker, smart seed picker, no smoothing. */
  method SmartShuffle(tracks: seq<Track>, story: Picker<Track>, similarity: MusicToolsShuffling.Similarity,
                      shuffle: Shuffler<Track>)
    returns (r: Result<seq<Track>>)
    requires IsPermuting(shuffle)
    ensures r == QuickPicked(tracks, MusicToolsShuffling.RadioPicker(story),
                             Some(MusicToolsShuffling.SmartSeedPicker(similarity)), None, shuffle)
    ensures r.Ok? ==> multiset(r.value) == multiset(tracks) && |r.value| == |tracks|
    ensures |tracks| < 2 ==> r == Ok(tracks)
    ensures |tracks| >= 2 && |shuffle(tracks)| >= 2 ==>
              (!SeedsValid(shuffle(tracks), MusicToolsShuffling.SmartSeeds(similarity, shuffle(tracks), None)) ==> r.Err?)
  {
    MusicToolsShuffling.SmartSeedPickerAcceptsPools(similarity);
    r := QuickPick.QuickPick(tracks, MusicToolsShuffling.RadioPicker(story),
                             Some(MusicToolsShuffling.SmartSeedPicker(similarity)), None, shuffle);
  }
}
