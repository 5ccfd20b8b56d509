/** The loops of omg_cli/agent_policy_ux.py over display text, proved to compute the functions of TextLayout. */
module TextLayoutCode {
  import opened Text
  import opened TextLayout

  /** `display_width` */
  method DisplayWidth(wide: Wide, text: string) returns (total: nat)
    ensures total == Width(wide, text)
  {
    total := 0;
    for i := 0 to |text|
      invariant total == Width(wide, text[..i])
    {
      assert text[..i + 1][..i] == text[..i];
      if wide(text[i]) { total := total + 2; } else { total := total + 1; }
    }
    assert text[..|text|] == text;
  }

  /** The loop of `truncate_display` and of `_fit_chars`: the longest front within a budget. */
  method LongestFront(wide: Wide, text: string, budget: nat) returns (k: nat)
    ensures k == FitLen(wide, text, budget)
  {
    var used: int := 0;
    k := 0;
    assert text[0..] == text;
    while k < |text|
      invariant k <= |text| && 0 <= used <= budget
      invariant FitLen(wide, text, budget) == k + FitLen(wide, text[k..], budget - used)
    {
      assert text[k..][1..] == text[k + 1..];
      var size := CharWidth(wide, text[k]);
      if used + size > budget { break; }
      used := used + size;
      k := k + 1;
    }
  }

  /** `truncate_display` */
  method TruncateDisplay(wide: Wide, text: string, width: int) returns (r: string)
    ensures r == Truncated(wide, text, width)
  {
    if width <= 0 { return ""; }
    var total := DisplayWidth(wide, text);
    if total <= width { return text; }
    var ellipsisWidth := DisplayWidth(wide, ELLIPSIS);
    if width <= ellipsisWidth { return ELLIPSIS[..if width < |ELLIPSIS| then width else |ELLIPSIS|]; }
    var k := LongestFront(wide, text, width - ellipsisWidth);
    return text[..k] + ELLIPSIS;
  }

  /** `pad_display` */
  method PadDisplay(wide: Wide, text: string, width: int) returns (r: string)
    ensures r == Padded(wide, text, width)
    ensures !wide(' ') && !wide(ELLIPSIS[0]) ==> Width(wide, r) == if width > 0 then width else 0
    ensures 0 < width && Width(wide, text) <= width ==> text <= r && forall i :: |text| <= i < |r| ==> r[i] == ' '
  {
    if !wide(' ') && !wide(ELLIPSIS[0]) {
      if width > 0 { PaddedFills(wide, text, width); } else { PaddedToNothing(wide, text, width); }
    }
    var clipped := TruncateDisplay(wide, text, width);
    var used := DisplayWidth(wide, clipped);
    return clipped + Spaces(if width > used then width - used else 0);
  }

  /** `_fit_chars` */
  method FitChars(wide: Wide, text: string, width: int) returns (head: string, rest: string)
    ensures head == text[..HeadLen(wide, text, width)] && rest == text[HeadLen(wide, text, width)..]
  {
    if width <= 0 { return "", text; }
    var total := DisplayWidth(wide, text);
    if total <= width {
      FitLenAll(wide, text, width);
      return text, "";
    }
    var k := LongestFront(wide, text, width);
    if k == 0 && |text| > 0 { return text[..1], text[1..]; }
    return text[..k], text[k..];
  }

  /** `_wrap_unbroken`; with a positive width every head has a character. */
  method WrapUnbroken(wide: Wide, text: string, width: nat) returns (lines: seq<string>)
    requires width > 0
    ensures lines == Unbroken(wide, text, width)
  {
    var total := DisplayWidth(wide, text);
    if total <= width { return [text]; }
    lines := [];
    var rest := text;
    while |rest| > 0
      invariant lines + Pieces(wide, rest, width) == Pieces(wide, text, width)
      decreases |rest|
    {
      var head;
      head, rest := FitChars(wide, rest, width);
      lines := lines + [head];
    }
  }

  /** The inner loop of `wrap_display`: a token broken over lines. */
  method BreakToken(wide: Wide, token: string, first: string, cont: string, width: nat) returns (lines: seq<string>)
    requires width > 0
    ensures lines == Broken(wide, token, first, cont, width)
  {
    hide HeadLen, Width;
    var rest, prefix := token, first;
    lines := [];
    while |rest| > 0
      invariant lines + Broken(wide, rest, prefix, cont, width) == Broken(wide, token, first, cont, width)
      decreases |rest|
    {
      ghost var before, was := lines, prefix;
      var used := DisplayWidth(wide, prefix);
      if used >= width {
        lines := lines + [prefix];
        prefix := cont;
        used := DisplayWidth(wide, prefix);
        if used >= width {
          prefix, used := "", 0;
          assert Width(wide, "") == 0 by { NoWidth(wide); }
        }
      }
      var k := HeadLen(wide, rest, width - used);
      var head, tail := FitChars(wide, rest, width - used);
      lines := lines + [prefix + head];
      assert lines == before + (if Width(wide, was) < width then [] else [was]) + [prefix + rest[..k]];
      rest, prefix := tail, cont;
    }
  }

  lemma NoWidth(wide: Wide)
    ensures Width(wide, "") == 0
  {}

  /** `wrap_display` */
  method WrapDisplay(wide: Wide, text: string, width: int, cont: string) returns (lines: seq<string>)
    ensures lines == Wrapped(wide, text, width, cont)
  {
    hide Fill, Words, Pieces, Broken, Width;
    if width < 1 { return [""]; }
    var n := IndentOf(text);
    var tokens := Words(text[n..]);
    if |tokens| == 0 {
      lines := WrapUnbroken(wide, text, width);
      return;
    }
    var prefix, parts: seq<string> := text[..n], [];
    lines := [];
    ghost var start := Filling([], Lead(text), []);
    for i := 0 to |tokens|
      invariant Filling(lines, prefix, parts) == FillAll(wide, start, tokens[..i], cont, width)
    {
      assert tokens[..i + 1][..i] == tokens[..i];
      lines, prefix, parts := PlaceToken(wide, lines, prefix, parts, tokens[i], cont, width);
    }
    assert tokens[..|tokens|] == tokens;
    if |parts| > 0 { lines := lines + [prefix + Join(parts, ' ')]; }
  }

  /** One round of the token loop. */
  method PlaceToken(wide: Wide, lines: seq<string>, prefix: string, parts: seq<string>, token: string, cont: string,
                    width: nat)
    returns (lines': seq<string>, prefix': string, parts': seq<string>)
    requires width > 0
    ensures Filling(lines', prefix', parts') == Fill(wide, Filling(lines, prefix, parts), token, cont, width)
  {
    hide Broken, Width;
    var trial := DisplayWidth(wide, prefix + Join(parts + [token], ' '));
    if trial <= width { return lines, prefix, parts + [token]; }
    lines', prefix' := lines, prefix;
    if |parts| > 0 {
      lines', prefix' := lines + [prefix + Join(parts, ' ')], cont;
      var alone := DisplayWidth(wide, prefix' + token);
      if alone <= width { return lines', prefix', [token]; }
    }
    var broken := BreakToken(wide, token, prefix', cont, width);
    return lines' + broken, cont, [];
  }
}
