/** Spotify's integer encodings of musical keys and modes, looked up by name. */
module MusicTheory {
  import opened Wrappers
  import opened Lists

  /** The pitch classes in Spotify's order: index 0 is C, index 11 is B. */
  const Keys: seq<string> := [
    "C", "C♯/D♭", "D", "D♯/E♭", "E", "F", "F♯/G♭", "G", "G♯/A♭", "A", "A♯/B♭", "B"
  ]

  /** Spotify's mode flag: 0 is minor, 1 is major. */
  const Modes: seq<string> := ["minor", "major"]

  /** Python's `table.index(name)`: the first position holding `name`, or ValueError. */
  function IndexOf(table: seq<string>, name: string): (r: Result<nat>)
    ensures r.Ok? <==> name in table
    ensures r.Ok? ==> r.value < |table| && table[r.value] == name
    ensures r.Ok? ==> forall j :: 0 <= j < r.value ==> table[j] != name
    ensures r.Err? ==> r.error == ValueError
  {
    if table == [] then Err(ValueError)
    else if table[0] == name then Ok(0)
    else match IndexOf(table[1..], name)
      case Ok(i) => Ok(i + 1)
      case Err(e) => Err(e)
  }

  /** In a table without repetitions, each entry is found at its own position. */
  lemma {:induction false} IndexOfDistinct(table: seq<string>, i: nat)
    requires Distinct(table) && i < |table|
    ensures IndexOf(table, table[i]) == Ok(i)
    decreases i
  {
    if i > 0 {
      assert table[0] != table[i];
      assert table[1..][i - 1] == table[i];
      IndexOfDistinct(table[1..], i - 1);
    }
  }

  /** `get_spotify_friendly_key`. */
  function SpotifyFriendlyKey(key: string): (r: Result<nat>)
    ensures r.Ok? <==> key in Keys
    ensures r.Ok? ==> r.value < 12 && Keys[r.value] == key
    ensures r.Err? ==> r.error == ValueError
  {
    IndexOf(Keys, key)
  }

  /** `get_spotify_friendly_mode`. */
  function SpotifyFriendlyMode(mode: string): (r: Result<nat>)
    ensures r.Ok? <==> mode in Modes
    ensures r.Ok? ==> r.value < 2 && Modes[r.value] == mode
    ensures r.Err? ==> r.error == ValueError
  {
    IndexOf(Modes, mode)
  }

  lemma KeysDistinct()
    ensures Distinct(Keys)
  {
  }

  /** Every key name maps back to its own index, so the lookup inverts the table. */
  lemma KeyRoundTrip(i: nat)
    requires i < 12
    ensures SpotifyFriendlyKey(Keys[i]) == Ok(i)
  {
    KeysDistinct();
    IndexOfDistinct(Keys, i);
  }

  /** Different key names get different indices. */
  lemma KeyLookupInjective(a: string, b: string)
    requires SpotifyFriendlyKey(a).Ok? && SpotifyFriendlyKey(b).Ok?
    requires SpotifyFriendlyKey(a) == SpotifyFriendlyKey(b)
    ensures a == b
  {
  }

  lemma ModeEncoding()
    ensures SpotifyFriendlyMode("minor") == Ok(0)
    ensures SpotifyFriendlyMode("major") == Ok(1)
    ensures SpotifyFriendlyMode("Major").Err?
  {
    assert Modes[1] == "major";
    assert "Major" != "minor" && "Major" != "major";
  }

  /** C, F sharp / G flat and B, the ends and the middle of the table. */
  lemma KeyEncodingExamples()
    ensures SpotifyFriendlyKey("C") == Ok(0)
    ensures SpotifyFriendlyKey("F♯/G♭") == Ok(6)
    ensures SpotifyFriendlyKey("B") == Ok(11)
  {
    KeyRoundTrip(0);
    KeyRoundTrip(6);
    KeyRoundTrip(11);
  }
}
