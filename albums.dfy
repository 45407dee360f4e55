/**
 * The `release_date` validator of an album: Spotify reports release dates
 * at year, month or day precision, and the validator pads the shorter ones
 * to a full `YYYY-MM-DD` string before the date parser sees them.
 */
module Albums {

  /** What reaches the validator: a string, or an already parsed date, which it passes on. */
  datatype ReleaseDateValue = Text(text: string) | Date(year: int, month: int, day: int)

  /** Python's `s.split(sep)` for a one-character separator. */
  function Split(s: string, sep: char): (fields: seq<string>)
    ensures |fields| >= 1
    ensures forall f :: f in fields ==> sep !in f
    decreases |s|
  {
    if s == [] then [""]
    else
      var rest := Split(s[1..], sep);
      if s[0] == sep then [""] + rest
      else [[s[0]] + rest[0]] + rest[1..]
  }

  /** Python's `sep.join(fields)`. */
  function Join(fields: seq<string>, sep: char): string
    requires |fields| >= 1
    decreases |fields|
  {
    if |fields| == 1 then fields[0] else fields[0] + [sep] + Join(fields[1..], sep)
  }

  /** The number of occurrences of `c` in `s`. */
  function Occurrences(s: string, c: char): nat {
    if s == [] then 0 else (if s[0] == c then 1 else 0) + Occurrences(s[1..], c)
  }

  /** There is one more field than separators. */
  lemma {:induction false} SplitFieldCount(s: string, sep: char)
    ensures |Split(s, sep)| == Occurrences(s, sep) + 1
    decreases |s|
  {
    if s != [] {
      SplitFieldCount(s[1..], sep);
    }
  }

  lemma {:induction false} JoinConsChar(c: char, fields: seq<string>, sep: char)
    requires |fields| >= 1
    ensures Join([[c] + fields[0]] + fields[1..], sep) == [c] + Join(fields, sep)
  {
    var g := [[c] + fields[0]] + fields[1..];
    if |fields| > 1 {
      assert g[1..] == fields[1..];
    }
  }

  /** Joining the fields of a split gives back the string. */
  lemma {:induction false} JoinSplit(s: string, sep: char)
    ensures Join(Split(s, sep), sep) == s
    decreases |s|
  {
    if s != [] {
      var rest := Split(s[1..], sep);
      JoinSplit(s[1..], sep);
      if s[0] == sep {
        assert ([""] + rest)[1..] == rest;
      } else {
        JoinConsChar(s[0], rest, sep);
      }
      assert s == [s[0]] + s[1..];
    }
  }

  /** A separator splits the string into the fields before it and those after it. */
  lemma {:induction false} SplitAtSeparator(a: string, b: string, sep: char)
    ensures Split(a + [sep] + b, sep) == Split(a, sep) + Split(b, sep)
    decreases |a|
  {
    if a == [] {
      assert a + [sep] + b == [sep] + b;
      assert ([sep] + b)[1..] == b;
    } else {
      assert (a + [sep] + b)[1..] == a[1..] + [sep] + b;
      SplitAtSeparator(a[1..], b, sep);
    }
  }

  /** A string without the separator is a single field. */
  lemma {:induction false} SplitWithoutSeparator(s: string, sep: char)
    requires sep !in s
    ensures Split(s, sep) == [s]
    decreases |s|
  {
    if s != [] {
      SplitWithoutSeparator(s[1..], sep);
      assert s == [s[0]] + s[1..];
    }
  }

  /** Splitting a join gives back the fields, as long as no field holds the separator. */
  lemma {:induction false} SplitJoin(fields: seq<string>, sep: char)
    requires |fields| >= 1
    requires forall f :: f in fields ==> sep !in f
    ensures Split(Join(fields, sep), sep) == fields
    decreases |fields|
  {
    if |fields| == 1 {
      SplitWithoutSeparator(fields[0], sep);
    } else {
      var head, rest := fields[0], fields[1..];
      assert head in fields;
      assert forall f :: f in rest ==> f in fields;
      SplitJoin(rest, sep);
      SplitWithoutSeparator(head, sep);
      var tail := Join(rest, sep);
      assert Join(fields, sep) == head + [sep] + tail;
      SplitAtSeparator(head, tail, sep);
      assert fields == [head] + rest;
    }
  }

  lemma {:induction false} JoinSnoc(fields: seq<string>, last: string, sep: char)
    requires |fields| >= 1
    ensures Join(fields + [last], sep) == Join(fields, sep) + [sep] + last
    decreases |fields|
  {
    if |fields| > 1 {
      assert (fields + [last])[1..] == fields[1..] + [last];
      JoinSnoc(fields[1..], last, sep);
    } else {
      assert (fields + [last])[1..] == [last];
    }
  }

  /** `["01"] * k`. */
  function Padding(k: nat): (p: seq<string>)
    ensures |p| == k && forall f :: f in p ==> f == "01"
  {
    seq(k, _ => "01")
  }

  /**
   * `coerce_to_full_date`: a string of one dash-separated field gets
   * `-01-01`, one of two fields gets `-01`; a longer string and anything
   * that is not a string pass through.
   */
  function CoerceToFullDate(value: ReleaseDateValue): (r: ReleaseDateValue)
    ensures value.Date? ==> r == value
    ensures value.Text? && '-' !in value.text ==> r == Text(value.text + "-01-01")
    ensures value.Text? && Occurrences(value.text, '-') == 1 ==> r == Text(value.text + "-01")
    ensures value.Text? && Occurrences(value.text, '-') >= 2 ==> r == value
    ensures value.Text? && Occurrences(value.text, '-') <= 1 ==>
      r.Text? && value.text <= r.text && |Split(r.text, '-')| == 3
  {
    match value
    case Date(_, _, _) => value
    case Text(s) =>
      var fields := Split(s, '-');
      if |fields| == 1 || |fields| == 2 then
        PaddedJoin(s, fields);
        Text(Join(fields + Padding(3 - |fields|), '-'))
      else
        SplitFieldCount(s, '-');
        NoOccurrencesIff(s);
        value
  }

  /** The padded join is the string with `-01` appended once or twice, and has three fields. */
  lemma PaddedJoin(s: string, fields: seq<string>)
    requires fields == Split(s, '-') && (|fields| == 1 || |fields| == 2)
    ensures '-' !in s ==> Join(fields + Padding(3 - |fields|), '-') == s + "-01-01"
    ensures Occurrences(s, '-') == 1 ==> Join(fields + Padding(3 - |fields|), '-') == s + "-01"
    ensures Occurrences(s, '-') <= 1
    ensures s <= Join(fields + Padding(3 - |fields|), '-')
    ensures |Split(Join(fields + Padding(3 - |fields|), '-'), '-')| == 3
  {
    SplitFieldCount(s, '-');
    JoinSplit(s, '-');
    NoOccurrencesIff(s);
    var padded := fields + Padding(3 - |fields|);
    if |fields| == 1 {
      SplitWithoutSeparator(s, '-');
      JoinPadTwice(s);
    } else {
      JoinPadOnce(fields);
    }
    assert forall f :: f in padded ==> f in fields || f == "01";
    SplitJoin(padded, '-');
  }

  lemma JoinPadTwice(s: string)
    ensures Join([s] + Padding(2), '-') == s + "-01-01"
  {
    assert [s] + Padding(2) == [s] + ["01"] + ["01"];
    JoinSnoc([s], "01", '-');
    JoinSnoc([s] + ["01"], "01", '-');
  }

  lemma JoinPadOnce(fields: seq<string>)
    requires |fields| == 2
    ensures Join(fields + Padding(1), '-') == Join(fields, '-') + "-01"
  {
    assert fields + Padding(1) == fields + ["01"];
    JoinSnoc(fields, "01", '-');
  }

  /** A string has no dash occurrences exactly when it contains no dash, so splitting it on dashes yields one field. */
  lemma {:induction false} NoOccurrencesIff(s: string)
    ensures Occurrences(s, '-') == 0 <==> '-' !in s
    decreases |s|
  {
    if s != [] {
      NoOccurrencesIff(s[1..]);
      assert s == [s[0]] + s[1..];
    }
  }

  lemma {:induction false} OccurrencesConcat(a: string, b: string, c: char)
    ensures Occurrences(a + b, c) == Occurrences(a, c) + Occurrences(b, c)
    decreases |a|
  {
    if a == [] {
      assert a + b == b;
    } else {
      assert (a + b)[1..] == a[1..] + b;
      OccurrencesConcat(a[1..], b, c);
    }
  }

  /** The month-precision date of the album-parsing unit test gets its day. */
  lemma CoerceMonthExample()
    ensures CoerceToFullDate(Text("1981-12")) == Text("1981-12-01")
  {
    assert "1981-12" == "1981" + "-" + "12";
    NoOccurrencesIff("1981");
    NoOccurrencesIff("12");
    OccurrencesConcat("1981", "-", '-');
    OccurrencesConcat("1981" + "-", "12", '-');
    assert Occurrences("1981-12", '-') == 1;
    assert "1981-12" + "-01" == "1981-12-01";
  }

  /** A year-only date gets both a month and a day. */
  lemma CoerceYearExample()
    ensures CoerceToFullDate(Text("1981")) == Text("1981-01-01")
  {
    assert '-' !in "1981";
  }

  /** A full date is left as it is. */
  lemma CoerceFullDateExample()
    ensures CoerceToFullDate(Text("1981-12-01")) == Text("1981-12-01")
  {
    assert "1981-12-01" == "1981" + "-" + "12" + "-" + "01";
    NoOccurrencesIff("1981");
    NoOccurrencesIff("12");
    OccurrencesConcat("1981", "-", '-');
    OccurrencesConcat("1981" + "-", "12", '-');
    OccurrencesConcat("1981" + "-" + "12", "-", '-');
    OccurrencesConcat("1981" + "-" + "12" + "-", "01", '-');
  }
}
