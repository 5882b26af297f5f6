/**
 * The stream end to end: what the streaming handlers of backend/main.py
 * write and what the widget of frontend/embedded/popup.js shows from it.
 * The server writes one JSON frame per line; the network may cut the text
 * into chunks anywhere; the widget rebuilds the lines and shows the text
 * of the last content frame. The text it ends up showing is the last
 * snapshot, which is also the reply the chat handler stores.
 */
module Transport {

  import opened JsText
  import opened JsonFrames
  import FrameParse
  import Popup
  import Server

  /** The lines the client sees for the given frames, as JavaScript strings. */
  function Lines(frames: seq<Frame>): (r: seq<JsString>)
    ensures |r| == |frames|
    ensures forall i | 0 <= i < |frames| :: r[i] == ToUtf16(EncodeFrame(frames[i]))
  {
    seq(|frames|, i requires 0 <= i < |frames| => ToUtf16(EncodeFrame(frames[i])))
  }

  /** A frame's text is one code unit per character and holds no line feed. */
  lemma FrameUnits(f: Frame)
    ensures |ToUtf16(EncodeFrame(f))| == |EncodeFrame(f)|
    ensures forall k | 0 <= k < |EncodeFrame(f)| :: ToUtf16(EncodeFrame(f))[k] == EncodeFrame(f)[k] as int
    ensures forall k | 0 <= k < |ToUtf16(EncodeFrame(f))| :: ToUtf16(EncodeFrame(f))[k] != NL
  {
    EncodeFramePrintable(f);
    ToUtf16Bmp(EncodeFrame(f));
  }

  /** One frame line splits into exactly the frame's text, with nothing
      left over. */
  lemma OneLine(f: Frame)
    ensures CompleteLines(ToUtf16(FrameLine(f))) == [ToUtf16(EncodeFrame(f))]
    ensures Tail(ToUtf16(FrameLine(f))) == []
  {
    var a := ToUtf16(EncodeFrame(f));
    FrameUnits(f);
    ToUtf16Append(EncodeFrame(f), "\n");
    assert ToUtf16("\n") == [NL];
    SplitLine(a, []);
    assert a + [NL] + [] == a + [NL];
  }

  /** However many frames the server writes, the client's complete lines
      are their texts, one per frame, and no partial line is left. */
  lemma {:induction false} WireLines(frames: seq<Frame>)
    ensures CompleteLines(ToUtf16(Wire(frames))) == Lines(frames)
    ensures Tail(ToUtf16(Wire(frames))) == []
  {
    if frames != [] {
      var x, y := ToUtf16(FrameLine(frames[0])), ToUtf16(Wire(frames[1..]));
      ToUtf16Append(FrameLine(frames[0]), Wire(frames[1..]));
      OneLine(frames[0]);
      CompleteLinesAppend(x, y);
      assert Tail(x) + y == y;
      WireLines(frames[1..]);
      LinesCons(frames);
    }
  }

  lemma LinesCons(frames: seq<Frame>)
    requires frames != []
    ensures Lines(frames) == [ToUtf16(EncodeFrame(frames[0]))] + Lines(frames[1..])
  {
  }

  /** A frame other than `content` leaves the message as it is. */
  lemma OtherLine(f: Frame)
    requires !f.Content?
    ensures !Popup.IsContentLine(ToUtf16(EncodeFrame(f)))
  {
    FrameParse.OtherFrameIgnored(f);
  }

  /** A `content` frame is a line the client acts on, and it shows the
      frame's text. */
  lemma ContentLine(t: string)
    ensures Popup.IsContentLine(ToUtf16(EncodeFrame(Content(t))))
    ensures FrameParse.ContentOf(ToUtf16(EncodeFrame(Content(t)))).value == ToUtf16(t)
  {
    var line := ToUtf16(EncodeFrame(Content(t)));
    FrameParse.ContentRoundTrip(t);
    FrameUnits(Content(t));
    assert EncodeFrame(Content(t))[0] == '{';
    assert !IsJsSpace(line[0]);
  }

  /** The text a stream leaves on screen: for frames that open with a
      non-content frame, carry the snapshots and close with a non-content
      frame, the message ends up showing the last snapshot (nothing when
      there was none), however the network cut the text into chunks. */
  lemma StreamShowsFinalText(chunks: seq<JsString>, first: Frame, snapshots: seq<string>, last: Frame)
    requires !first.Content? && !last.Content?
    requires Popup.Concat(chunks) == ToUtf16(Wire(Server.StreamFrames(first, snapshots, last)))
    ensures Popup.Displayed(CompleteLines(Popup.Concat(chunks)), []) == ToUtf16(Server.FinalText(snapshots))
  {
    var frames := Server.StreamFrames(first, snapshots, last);
    WireLines(frames);
    StreamLines(first, snapshots, last);
    ShowsLast(Lines(frames), |snapshots|, ToUtf16(Server.FinalText(snapshots)));
  }

  /** The lines of a stream: the first and the last are not content lines,
      the last content line carries the last snapshot. */
  lemma StreamLines(first: Frame, snapshots: seq<string>, last: Frame)
    requires !first.Content? && !last.Content?
    ensures |Lines(Server.StreamFrames(first, snapshots, last))| == |snapshots| + 2
    ensures !Popup.IsContentLine(Lines(Server.StreamFrames(first, snapshots, last))[0])
    ensures !Popup.IsContentLine(Lines(Server.StreamFrames(first, snapshots, last))[|snapshots| + 1])
    ensures snapshots != [] ==>
      && Popup.IsContentLine(Lines(Server.StreamFrames(first, snapshots, last))[|snapshots|])
      && FrameParse.ContentOf(Lines(Server.StreamFrames(first, snapshots, last))[|snapshots|]).value
         == ToUtf16(Server.FinalText(snapshots))
  {
    var frames := Server.StreamFrames(first, snapshots, last);
    var n := |snapshots|;
    assert frames[0] == first && frames[n + 1] == last;
    OtherLine(first);
    OtherLine(last);
    if n > 0 {
      assert frames[n] == Content(snapshots[n - 1]);
      ContentLine(snapshots[n - 1]);
    }
  }

  /** Lines that open and close with a non-content line show the content
      line just before the closing one, or nothing when there is none. */
  lemma ShowsLast(lines: seq<JsString>, n: nat, text: JsString)
    requires |lines| == n + 2
    requires !Popup.IsContentLine(lines[0]) && !Popup.IsContentLine(lines[n + 1])
    requires n == 0 ==> text == []
    requires n > 0 ==> Popup.IsContentLine(lines[n]) && FrameParse.ContentOf(lines[n]).value == text
    ensures Popup.Displayed(lines, []) == text
  {
    forall j | n < j < |lines|
      ensures !Popup.IsContentLine(lines[j])
    {
      assert j == n + 1;
    }
    if n == 0 {
      forall i | 0 <= i < |lines|
        ensures !Popup.IsContentLine(lines[i])
      {
        assert i == 0 || i == 1;
      }
      Popup.DisplayedNone(lines, []);
    } else {
      Popup.DisplayedLast(lines, [], n);
    }
  }
}
