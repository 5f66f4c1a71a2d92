/**
  The format-selection expression the download step hands to the media
  library, chosen from the task's mode and quality ceiling. Alternatives are
  separated by '/' and tried left to right.
*/
module Formats {
  import opened Strings
  import opened Tasks

  const AudioFormat := "bestaudio" + "/" + "best"

  /** The filter that caps the video height at `quality`. */
  function HeightCap(quality: string): string {
    "[height<=" + quality + "]"
  }

  /**
    The `'format'` option for a mode and a quality: for video, the three
    alternatives of `VideoAlternatives`, each capped at the quality unless it
    is `'best'`, which means no ceiling.
  */
  function FormatFor(mode: Mode, quality: string): string {
    if mode == Audio then
      AudioFormat
    else if quality != "best" then
      Join3(VideoAlternatives(HeightCap(quality)))
    else
      Join3(VideoAlternatives(""))
  }

  /**
    The entries of the options dictionary the download step builds that this
    model keeps: the `'format'` expression and the `'paths'` home folder.
  */
  datatype DownloadOptions = DownloadOptions(format: string, home: string)

  /**
    The three video alternatives with a given filter after each selector: an
    H.264 stream with an AAC audio stream, any video with any audio, and a
    single file that already holds both.
  */
  function VideoAlternatives(cap: string): seq<string> {
    ["bestvideo" + cap + "[vcodec^=avc]+bestaudio[acodec^=mp4a]", "bestvideo" + cap + "+bestaudio", "best" + cap]
  }

  /**
    Both video expressions are the same three alternatives, with the height
    cap after each selector when a ceiling is set and with no filter for
    `'best'`; every alternative of a capped expression carries the cap. Audio
    prefers an audio-only stream and falls back to the best single file.
  */
  lemma FormatAlternatives(mode: Mode, quality: string)
    requires '/' !in quality
    ensures mode == Audio ==> Split(FormatFor(mode, quality), '/') == ["bestaudio", "best"]
    ensures mode == Video ==>
      Split(FormatFor(mode, quality), '/') == VideoAlternatives(if quality == "best" then "" else HeightCap(quality))
    ensures mode == Video && quality != "best" ==>
      forall a :: a in Split(FormatFor(mode, quality), '/') ==> Contains(a, HeightCap(quality))
  {
    if mode == Audio {
      SplitAfter("bestaudio", '/', "best");
    } else if quality == "best" {
      SplitAlternatives("");
    } else {
      SlashFreeCap(quality);
      SplitAlternatives(HeightCap(quality));
      EveryAlternativeCapped(HeightCap(quality));
    }
  }

  /** Three alternatives joined by '/'. */
  function Join3(alts: seq<string>): string
    requires |alts| == 3
  {
    alts[0] + "/" + alts[1] + "/" + alts[2]
  }

  /** Alternatives free of '/' split back out of their join. */
  lemma SplitAlternatives(cap: string)
    requires '/' !in cap
    ensures Split(Join3(VideoAlternatives(cap)), '/') == VideoAlternatives(cap)
  {
    var alts := VideoAlternatives(cap);
    assert '/' !in "[vcodec^=avc]+bestaudio[acodec^=mp4a]";
    assert '/' !in alts[0] && '/' !in alts[1] && '/' !in alts[2];
    assert Join3(alts) == alts[0] + ['/'] + (alts[1] + ['/'] + alts[2]);
    SplitAfter(alts[0], '/', alts[1] + ['/'] + alts[2]);
    SplitAfter(alts[1], '/', alts[2]);
  }

  lemma SlashFreeCap(quality: string)
    requires '/' !in quality
    ensures '/' !in HeightCap(quality)
  {
  }

  lemma EveryAlternativeCapped(cap: string)
    ensures forall a :: a in VideoAlternatives(cap) ==> Contains(a, cap)
  {
    var alts := VideoAlternatives(cap);
    ContainsAt(alts[0], cap, 9);
    ContainsAt(alts[1], cap, 9);
    ContainsAt(alts[2], cap, 4);
  }

  const CapPrefix := "bestvideo[height<="

  /** The height ceiling the first alternative of an expression asks for, if any. */
  function CeilingOf(fmt: string): Option<string> {
    if |fmt| >= |CapPrefix| && fmt[..|CapPrefix|] == CapPrefix then
      var rest := fmt[|CapPrefix|..];
      var i := IndexOf(rest, ']');
      if i < |rest| then Some(rest[..i]) else None
    else
      None
  }

  lemma CeilingAfterPrefix(quality: string, tail: string)
    requires ']' !in quality
    ensures CeilingOf(CapPrefix + quality + "]" + tail) == Some(quality)
  {
    var fmt := CapPrefix + quality + "]" + tail;
    var rest := quality + "]" + tail;
    assert fmt == CapPrefix + rest;
    assert fmt[..|CapPrefix|] == CapPrefix;
    assert fmt[|CapPrefix|..] == rest;
    assert rest[|quality|] == ']';
    assert IndexOf(rest, ']') == |quality|;
    assert rest[..|quality|] == quality;
  }

  lemma CappedAfterPrefix(quality: string)
    requires quality != "best"
    ensures FormatFor(Video, quality) == CapPrefix + quality + "]" + CappedTail(quality)
  {
    var cap := HeightCap(quality);
    var alts := VideoAlternatives(cap);
    var video := "[vcodec^=avc]+bestaudio[acodec^=mp4a]";
    assert "bestvideo" + cap == CapPrefix + quality + "]";
    assert alts[0] == ("bestvideo" + cap) + video;
    assert CappedTail(quality) == video + "/" + alts[1] + "/" + alts[2];
    assert Join3(alts) == (CapPrefix + quality + "]") + (video + "/" + alts[1] + "/" + alts[2]);
  }

  /** What follows the first height cap in a capped video expression. */
  function CappedTail(quality: string): string {
    "[vcodec^=avc]+bestaudio[acodec^=mp4a]" + "/" + "bestvideo" + HeightCap(quality)
    + "+bestaudio" + "/" + "best" + HeightCap(quality)
  }

  /**
    The ceiling can be read back from the expression: it is the chosen
    quality exactly when a video ceiling other than `'best'` is set.
  */
  lemma CeilingRoundTrip(mode: Mode, quality: string)
    requires ']' !in quality
    ensures CeilingOf(FormatFor(mode, quality)) == if mode == Video && quality != "best" then Some(quality) else None
  {
    if mode == Video && quality != "best" {
      CappedAfterPrefix(quality);
      CeilingAfterPrefix(quality, CappedTail(quality));
    } else if mode == Video {
      UncappedHasNoCeiling();
    }
  }

  /** The unfiltered video expression does not start with a height cap. */
  lemma UncappedHasNoCeiling()
    ensures CeilingOf(FormatFor(Video, "best")) == None
  {
    var alts := VideoAlternatives("");
    var fmt := Join3(alts);
    assert alts[0] == "bestvideo[vcodec^=avc]+bestaudio[acodec^=mp4a]";
    assert fmt == alts[0] + ("/" + alts[1] + "/" + alts[2]);
    assert fmt[10] == 'v' && CapPrefix[10] == 'h';
    assert |fmt| >= |CapPrefix| ==> fmt[..|CapPrefix|][10] != CapPrefix[10];
  }
}
