/** `VramTextWriter`: a text cursor over the framebuffer. A newline moves
    the cursor to the start of the next 16-pixel line without drawing; any
    other character is drawn at the cursor in white and moves it 8 pixels
    right. The drawing routine `draw_font_fg` is not part of this model:
    each call to it is recorded, with its position, colour and character, in a ghost log. */
module TextWriter {
  import opened Graphics

  const LINE_HEIGHT: int := 16
  const GLYPH_WIDTH: int := 8
  /** The foreground colour every glyph is drawn in, as 0xRRGGBB. */
  const FOREGROUND: int := 0xffffff

  datatype Cursor = Cursor(x: int, y: int)

  /** One call `draw_font_fg(vram, x, y, color, c)`. */
  datatype DrawCall = DrawCall(x: int, y: int, color: int, c: char)

  /** `fmt::Result`. */
  datatype FmtResult = FmtOk | FmtError

  /** Where the cursor goes after one character. */
  function Step(cur: Cursor, c: char): Cursor {
    if c == '\n' then Cursor(0, cur.y + LINE_HEIGHT) else Cursor(cur.x + GLYPH_WIDTH, cur.y)
  }

  /** The cursor after writing `s` from `cur`. */
  function CursorAfter(cur: Cursor, s: string): Cursor
    decreases |s|
  {
    if s == [] then cur else CursorAfter(Step(cur, s[0]), s[1..])
  }

  /** The glyphs drawn while writing `s` from `cur`, in order. */
  function DrawsFor(cur: Cursor, s: string): seq<DrawCall>
    decreases |s|
  {
    if s == [] then []
    else if s[0] == '\n' then DrawsFor(Step(cur, s[0]), s[1..])
    else [DrawCall(cur.x, cur.y, FOREGROUND, s[0])] + DrawsFor(Step(cur, s[0]), s[1..])
  }

  /** The characters of `s` other than newline, in order. */
  function Printable(s: string): string {
    if s == [] then [] else (if s[0] == '\n' then [] else [s[0]]) + Printable(s[1..])
  }

  /** The number of newlines in `s`. */
  function Newlines(s: string): nat {
    if s == [] then 0 else (if s[0] == '\n' then 1 else 0) + Newlines(s[1..])
  }

  /** Writing `s` and then `t` draws and moves exactly as writing `s + t`. */
  lemma {:induction false} WriteConcat(cur: Cursor, s: string, t: string)
    ensures CursorAfter(cur, s + t) == CursorAfter(CursorAfter(cur, s), t)
    ensures DrawsFor(cur, s + t) == DrawsFor(cur, s) + DrawsFor(CursorAfter(cur, s), t)
    decreases |s|
  {
    if s == [] {
      assert s + t == t;
    } else {
      assert (s + t)[0] == s[0] && (s + t)[1..] == s[1..] + t;
      WriteConcat(Step(cur, s[0]), s[1..], t);
    }
  }

  /** One glyph per character that is not a newline: the characters in
      order, all in the foreground colour. */
  lemma {:induction false} DrawsArePrintable(cur: Cursor, s: string)
    ensures |DrawsFor(cur, s)| == |Printable(s)|
    ensures forall i :: 0 <= i < |DrawsFor(cur, s)| ==>
      DrawsFor(cur, s)[i].c == Printable(s)[i] && DrawsFor(cur, s)[i].color == FOREGROUND
    decreases |s|
  {
    if s != [] {
      DrawsArePrintable(Step(cur, s[0]), s[1..]);
    }
  }

  /** Each non-newline character `s[k]` is drawn at the cursor position
      reached by writing the characters before it. */
  lemma DrawnAtCursor(cur: Cursor, s: string, k: nat)
    requires k < |s| && s[k] != '\n'
    ensures var before := CursorAfter(cur, s[..k]);
      && |Printable(s[..k])| < |DrawsFor(cur, s)|
      && DrawsFor(cur, s)[|Printable(s[..k])|] == DrawCall(before.x, before.y, FOREGROUND, s[k])
  {
    assert s == s[..k] + s[k..];
    WriteConcat(cur, s[..k], s[k..]);
    DrawsArePrintable(cur, s[..k]);
  }

  /** Each newline moves the cursor one line down; nothing else moves it vertically. */
  lemma {:induction false} CursorLine(cur: Cursor, s: string)
    ensures CursorAfter(cur, s).y == cur.y + LINE_HEIGHT * Newlines(s)
    decreases |s|
  {
    if s != [] {
      CursorLine(Step(cur, s[0]), s[1..]);
    }
  }

  /** Without a newline the cursor moves one glyph right per character. */
  lemma {:induction false} CursorColumnWithinLine(cur: Cursor, s: string)
    requires forall i :: 0 <= i < |s| ==> s[i] != '\n'
    ensures CursorAfter(cur, s) == Cursor(cur.x + GLYPH_WIDTH * |s|, cur.y)
    decreases |s|
  {
    if s != [] {
      CursorColumnWithinLine(Step(cur, s[0]), s[1..]);
    }
  }

  /** After a newline at `k` and none later, the column counts only the
      characters after it, from 0. */
  lemma CursorColumnAfterNewline(cur: Cursor, s: string, k: nat)
    requires k < |s| && s[k] == '\n'
    requires forall i :: k < i < |s| ==> s[i] != '\n'
    ensures CursorAfter(cur, s).x == GLYPH_WIDTH * (|s| - k - 1)
  {
    assert s == s[..k + 1] + s[k + 1..];
    WriteConcat(cur, s[..k + 1], s[k + 1..]);
    assert s[..k + 1] == s[..k] + [s[k]];
    WriteConcat(cur, s[..k], [s[k]]);
    CursorColumnWithinLine(CursorAfter(cur, s[..k + 1]), s[k + 1..]);
  }

  class VramTextWriter {
    const vram: VramBufferInfo
    var cursorX: int
    var cursorY: int
    /** Every `draw_font_fg` call made so far. */
    ghost var drawn: seq<DrawCall>

    /** `VramTextWriter::new`: the cursor starts at the top-left corner. */
    constructor (vram: VramBufferInfo)
      ensures this.vram == vram
      ensures cursorX == 0 && cursorY == 0
      ensures drawn == []
    {
      this.vram := vram;
      cursorX := 0;
      cursorY := 0;
      drawn := [];
    }

    /** `write_str`: walk the characters, drawing and moving the cursor; it never fails. */
    method WriteStr(s: string) returns (r: FmtResult)
      modifies this`cursorX, this`cursorY, this`drawn
      ensures r == FmtOk
      ensures Cursor(cursorX, cursorY) == CursorAfter(old(Cursor(cursorX, cursorY)), s)
      ensures drawn == old(drawn) + DrawsFor(old(Cursor(cursorX, cursorY)), s)
    {
      ghost var start := Cursor(cursorX, cursorY);
      ghost var drawn0 := drawn;
      var i := 0;
      while i < |s|
        invariant i <= |s|
        invariant CursorAfter(Cursor(cursorX, cursorY), s[i..]) == CursorAfter(start, s)
        invariant drawn + DrawsFor(Cursor(cursorX, cursorY), s[i..]) == drawn0 + DrawsFor(start, s)
      {
        var c := s[i];
        assert s[i..][0] == c && s[i..][1..] == s[i + 1..];
        if c == '\n' {
          cursorY := cursorY + LINE_HEIGHT;
          cursorX := 0;
        } else {
          drawn := drawn + [DrawCall(cursorX, cursorY, FOREGROUND, c)];
          cursorX := cursorX + GLYPH_WIDTH;
        }
        i := i + 1;
      }
      r := FmtOk;
    }
  }
}
