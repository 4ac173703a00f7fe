/**
 * The locator `Camera._save_image` gives a captured frame:
 * `<base_path>/<%Y-%m-%d>/<%H-%M-%S-%f>.<image_ext>`, where the middle
 * component is the directory it creates before writing the image.
 * `ParseImagePath` reads such a locator back, which shows that the locator
 * determines the capture instant.
 */
module ImagePaths {
  import opened Optional
  import opened Decimal
  import opened DateTimes

  /** `timestamp.strftime("%Y-%m-%d")` */
  function DateStamp(t: DateTime): (s: string)
    ensures |s| == 10 && s[4] == '-' && s[7] == '-'
    ensures s[..4] == Padded(t.year, 4) && s[5..7] == Padded(t.month, 2) && s[8..] == Padded(t.day, 2)
  {
    assert Pow10(4) == 10000 && Pow10(2) == 100;
    Padded(t.year, 4) + "-" + Padded(t.month, 2) + "-" + Padded(t.day, 2)
  }

  /** `timestamp.strftime("%H-%M-%S-%f")` */
  function TimeStamp(t: DateTime): (s: string)
    ensures |s| == 15 && s[2] == '-' && s[5] == '-' && s[8] == '-'
    ensures s[..2] == Padded(t.hour, 2) && s[3..5] == Padded(t.minute, 2)
    ensures s[6..8] == Padded(t.second, 2) && s[9..] == Padded(t.microsecond, 6)
  {
    assert Pow10(2) == 100 && Pow10(6) == 1_000_000;
    Padded(t.hour, 2) + "-" + Padded(t.minute, 2) + "-" + Padded(t.second, 2) + "-" + Padded(t.microsecond, 6)
  }

  /** The directory `_save_image` creates with `os.makedirs` when missing. */
  function DayDirectory(basePath: string, t: DateTime): string {
    basePath + "/" + DateStamp(t)
  }

  /** The path `_save_image` writes the frame to and returns. */
  function ImagePath(basePath: string, t: DateTime, imageExt: string): string {
    DayDirectory(basePath, t) + "/" + TimeStamp(t) + "." + imageExt
  }

  function ParseDateStamp(s: string): Option<(int, int, int)> {
    if |s| == 10 && s[4] == '-' && s[7] == '-'
       && AllDigits(s[..4]) && AllDigits(s[5..7]) && AllDigits(s[8..])
    then Some((Value(s[..4]), Value(s[5..7]), Value(s[8..])))
    else None
  }

  function ParseTimeStamp(s: string): Option<(int, int, int, int)> {
    if |s| == 15 && s[2] == '-' && s[5] == '-' && s[8] == '-'
       && AllDigits(s[..2]) && AllDigits(s[3..5]) && AllDigits(s[6..8]) && AllDigits(s[9..])
    then Some((Value(s[..2]), Value(s[3..5]), Value(s[6..8]), Value(s[9..])))
    else None
  }

  /** Recovers the capture instant from a locator made with the given base path and extension. */
  function ParseImagePath(basePath: string, imageExt: string, path: string): Option<DateTime> {
    var n := |basePath|;
    if |path| == n + 28 + |imageExt| && path[..n] == basePath && path[n] == '/'
       && path[n + 11] == '/' && path[n + 27] == '.' && path[n + 28..] == imageExt
    then
      match (ParseDateStamp(path[n + 1..n + 11]), ParseTimeStamp(path[n + 12..n + 27]))
      case (Some(d), Some(c)) =>
        var f := Fields(d.0, d.1, d.2, c.0, c.1, c.2, c.3);
        if ValidFields(f) then Some(f) else None
      case _ => None
    else None
  }

  lemma DateStampRoundTrip(t: DateTime)
    ensures ParseDateStamp(DateStamp(t)) == Some((t.year, t.month, t.day))
  {
    assert Pow10(4) == 10000 && Pow10(2) == 100;
    ValueOfPadded(t.year, 4);
    ValueOfPadded(t.month, 2);
    ValueOfPadded(t.day, 2);
  }

  lemma TimeStampRoundTrip(t: DateTime)
    ensures ParseTimeStamp(TimeStamp(t)) == Some((t.hour, t.minute, t.second, t.microsecond))
  {
    assert Pow10(2) == 100 && Pow10(6) == 1_000_000;
    ValueOfPadded(t.hour, 2);
    ValueOfPadded(t.minute, 2);
    ValueOfPadded(t.second, 2);
    ValueOfPadded(t.microsecond, 6);
  }

  /** The locator layout: the day directory, a separator, the time-of-day
      file name, a dot and the extension, with fixed-width stamps. */
  lemma ImagePathLayout(basePath: string, t: DateTime, imageExt: string)
    ensures var p := ImagePath(basePath, t, imageExt);
            var n := |basePath|;
            && |p| == n + 28 + |imageExt|
            && p[..n + 11] == DayDirectory(basePath, t)
            && p[..n] == basePath && p[n] == '/' && p[n + 1..n + 11] == DateStamp(t)
            && p[n + 11] == '/' && p[n + 12..n + 27] == TimeStamp(t)
            && p[n + 27] == '.' && p[n + 28..] == imageExt
  {
    JoinLayout(basePath, DateStamp(t), TimeStamp(t), imageExt);
  }

  /** Positions in `base/date/time.ext` for a 10-character date and a 15-character time. */
  lemma JoinLayout(base: string, date: string, time: string, ext: string)
    requires |date| == 10 && |time| == 15
    ensures var p := base + "/" + date + "/" + time + "." + ext;
            var n := |base|;
            && |p| == n + 28 + |ext|
            && p[..n + 11] == base + "/" + date
            && p[..n] == base && p[n] == '/' && p[n + 1..n + 11] == date
            && p[n + 11] == '/' && p[n + 12..n + 27] == time
            && p[n + 27] == '.' && p[n + 28..] == ext
  {
  }

  /** Reading a locator back with the same base path and extension yields its capture instant. */
  lemma ImagePathRoundTrip(basePath: string, t: DateTime, imageExt: string)
    ensures ParseImagePath(basePath, imageExt, ImagePath(basePath, t, imageExt)) == Some(t)
  {
    ImagePathLayout(basePath, t, imageExt);
    DateStampRoundTrip(t);
    TimeStampRoundTrip(t);
  }

  /** A date stamp that parses to the fields of `t` is the stamp of `t`. */
  lemma DateStampOfParsed(s: string, t: DateTime)
    requires ParseDateStamp(s) == Some((t.year, t.month, t.day))
    ensures DateStamp(t) == s
  {
    PaddedOfValue(s[..4]);
    PaddedOfValue(s[5..7]);
    PaddedOfValue(s[8..]);
    var d := DateStamp(t);
    assert s == s[..4] + [s[4]] + s[5..7] + [s[7]] + s[8..];
    assert d == d[..4] + [d[4]] + d[5..7] + [d[7]] + d[8..];
  }

  /** A time stamp that parses to the fields of `t` is the stamp of `t`. */
  lemma TimeStampOfParsed(s: string, t: DateTime)
    requires ParseTimeStamp(s) == Some((t.hour, t.minute, t.second, t.microsecond))
    ensures TimeStamp(t) == s
  {
    PaddedOfValue(s[..2]);
    PaddedOfValue(s[3..5]);
    PaddedOfValue(s[6..8]);
    PaddedOfValue(s[9..]);
    assert s == s[..2] + [s[2]] + s[3..5] + [s[5]] + s[6..8] + [s[8]] + s[9..];
  }

  /** The converse of `ImagePathRoundTrip`: whatever `ParseImagePath` accepts is
      exactly the locator of the instant it returns, so parsing loses nothing. */
  lemma ParseImagePathSound(basePath: string, imageExt: string, path: string)
    requires ParseImagePath(basePath, imageExt, path).Some?
    ensures ImagePath(basePath, ParseImagePath(basePath, imageExt, path).value, imageExt) == path
  {
    var n := |basePath|;
    var t := ParseImagePath(basePath, imageExt, path).value;
    var date, time := path[n + 1..n + 11], path[n + 12..n + 27];
    assert ParseDateStamp(date) == Some((t.year, t.month, t.day));
    assert ParseTimeStamp(time) == Some((t.hour, t.minute, t.second, t.microsecond));
    DateStampOfParsed(date, t);
    TimeStampOfParsed(time, t);
    LocatorPieces(path, n);
  }

  /** `p` cut at the three separators of a locator whose base path has length `n`. */
  lemma LocatorPieces(p: string, n: nat)
    requires n + 28 <= |p|
    ensures p == p[..n] + [p[n]] + p[n + 1..n + 11] + [p[n + 11]] + p[n + 12..n + 27] + [p[n + 27]] + p[n + 28..]
  {
  }

  /** Two distinct capture instants never share a locator, so one image never overwrites another. */
  lemma ImagePathInjective(basePath: string, t1: DateTime, t2: DateTime, imageExt: string)
    requires t1 != t2
    ensures ImagePath(basePath, t1, imageExt) != ImagePath(basePath, t2, imageExt)
  {
    ImagePathRoundTrip(basePath, t1, imageExt);
    ImagePathRoundTrip(basePath, t2, imageExt);
  }

  /** The directory created is the parent of the file written: the locator
      is that directory, one `/`, and a last component without `/` (as long
      as the extension has none). */
  lemma ImagePathInDayDirectory(basePath: string, t: DateTime, imageExt: string)
    requires forall i :: 0 <= i < |imageExt| ==> imageExt[i] != '/'
    ensures var p := ImagePath(basePath, t, imageExt);
            var dir := DayDirectory(basePath, t);
            && |dir| < |p| && p[..|dir|] == dir && p[|dir|] == '/'
            && forall i :: |dir| < i < |p| ==> p[i] != '/'
  {
    var p := ImagePath(basePath, t, imageExt);
    var n := |basePath|;
    var ts := TimeStamp(t);
    ImagePathLayout(basePath, t, imageExt);
    forall i | n + 11 < i < |p|
      ensures p[i] != '/'
    {
      if i < n + 27 {
        assert p[i] == ts[i - n - 12];
        assert AllDigits(Padded(t.hour, 2)) && AllDigits(Padded(t.minute, 2));
        assert AllDigits(Padded(t.second, 2)) && AllDigits(Padded(t.microsecond, 6));
        var k := i - n - 12;
        if k < 2 { assert ts[k] == ts[..2][k]; }
        else if 3 <= k < 5 { assert ts[k] == ts[3..5][k - 3]; }
        else if 6 <= k < 8 { assert ts[k] == ts[6..8][k - 6]; }
        else if 9 <= k { assert ts[k] == ts[9..][k - 9]; }
      } else if i > n + 27 {
        assert p[i] == imageExt[i - n - 28];
      }
    }
  }
}
