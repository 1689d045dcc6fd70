/** Splitting long text into chunks that keep code fences balanced. */
module FenceSplitter {
  import opened Prelude
  import opened SessionToken

  const Fence := "```"
  const Opening := "```\n"
  const Closing := "\n```"

  /** `count("```")`: occurrences from the left that do not overlap. */
  function Fences(s: string): nat
    decreases |s|
  {
    if |s| < 3 then 0
    else if s[..3] == Fence then 1 + Fences(s[3..])
    else Fences(s[1..])
  }

  /** Text without white space. */
  function Squeeze(s: string): string {
    if s == [] then [] else (if IsBlank(s[0]) then [] else [s[0]]) + Squeeze(s[1..])
  }

  /** A stretch of the text, and whether a fence is reopened before it and closed behind it. */
  datatype Piece = Piece(open: bool, body: string, close: bool)

  function Prefix(open: bool): string {
    if open then Opening else ""
  }

  function Render(p: Piece): string {
    Prefix(p.open) + p.body + if p.close then Closing else ""
  }

  /** `rfind` of one character in a range. */
  function LastIn(text: string, c: char, lo: nat, hi: nat): (r: Option<nat>)
    requires lo <= hi <= |text|
    ensures r.Some? ==> lo <= r.value < hi && text[r.value] == c && forall k :: r.value < k < hi ==> text[k] != c
    ensures r.None? ==> forall k :: lo <= k < hi ==> text[k] != c
    decreases hi - lo
  {
    if lo == hi then None else if text[hi - 1] == c then Some(hi - 1) else LastIn(text, c, lo, hi - 1)
  }

  function Budget(maxLen: nat, open: bool): (b: nat)
    requires maxLen >= 1 && (open ==> maxLen >= 3)
    ensures b >= 1
  {
    var room := maxLen - |Prefix(open)|;
    if room > maxLen / 2 then room else maxLen / 2
  }

  /** Where the next piece ends: at the last newline, else the last space, past the first quarter of the budget. */
  function Cut(text: string, i: nat, budget: nat): (end: nat)
    requires i < |text| && budget >= 1
    ensures i < end <= |text| && end <= i + budget
  {
    if i + budget >= |text| then |text|
    else
      var end := i + budget;
      match LastIn(text, '\n', i, end)
      case Some(nl) => if nl > i + budget / 4 then nl else CutAtSpace(text, i, budget)
      case None => CutAtSpace(text, i, budget)
  }

  function CutAtSpace(text: string, i: nat, budget: nat): (end: nat)
    requires i + budget < |text| && budget >= 1
    ensures i < end <= i + budget
  {
    match LastIn(text, ' ', i, i + budget)
    case Some(sp) => if sp > i + budget / 4 then sp else i + budget
    case None => i + budget
  }

  /** The place has the character and lies in the window, past its first quarter. */
  predicate Breaks(text: string, c: char, i: nat, budget: nat, k: nat) {
    k < |text| && i + budget / 4 < k < i + budget && text[k] == c
  }

  /** No later place of the window has it. */
  ghost predicate LastBreak(text: string, c: char, i: nat, budget: nat, k: nat) {
    Breaks(text, c, i, budget, k) && forall j: nat :: j > k ==> !Breaks(text, c, i, budget, j)
  }

  /**
   A stretch that fits is taken whole. Otherwise it ends at the last newline past the first quarter, without one
   at the last such space, and without either when the budget is used up.
   */
  lemma CutIsExact(text: string, i: nat, budget: nat)
    requires i < |text| && budget >= 1
    ensures var end := Cut(text, i, budget);
      if |text| <= i + budget then end == |text|
      else if exists k: nat :: Breaks(text, '\n', i, budget, k) then LastBreak(text, '\n', i, budget, end)
      else if exists k: nat :: Breaks(text, ' ', i, budget, k) then LastBreak(text, ' ', i, budget, end)
      else end == i + budget
  {
    if i + budget < |text| {
      LastInBreaks(text, '\n', i, budget);
      LastInBreaks(text, ' ', i, budget);
    }
    hide LastIn, Breaks;
  }

  lemma LastInBreaks(text: string, c: char, i: nat, budget: nat)
    requires i + budget < |text|
    ensures var last := LastIn(text, c, i, i + budget);
      if last.Some? && last.value > i + budget / 4 then LastBreak(text, c, i, budget, last.value)
      else forall k: nat :: !Breaks(text, c, i, budget, k)
  {
  }

  /** What is left of the limit beside a reopened fence, but never less than half of it. */
  lemma BudgetIsExact(maxLen: nat, open: bool)
    requires maxLen >= 1 && (open ==> maxLen >= 3)
    ensures var b, room := Budget(maxLen, open), maxLen - if open then 4 else 0;
      b >= room && 2 * b + 1 >= maxLen && (b == room || 2 * b <= maxLen)
  {
  }

  function SkipBlanks(text: string, i: nat): (j: nat)
    requires i <= |text|
    ensures i <= j <= |text|
    decreases |text| - i
  {
    if i < |text| && text[i] in "\n " then SkipBlanks(text, i + 1) else i
  }

  lemma {:induction false} FencesNeedRoom(s: string)
    ensures 3 * Fences(s) <= |s|
    decreases |s|
  {
    if |s| >= 3 {
      if s[..3] == Fence { FencesNeedRoom(s[3..]); } else { FencesNeedRoom(s[1..]); }
    }
  }

  /** Whether the text so far leaves a fence open. */
  predicate LeavesOpen(open: bool, body: string) {
    Fences(Prefix(open) + body) % 2 == 1
  }

  /** An open fence needs a chunk of at least three characters: it is unreachable for smaller limits. */
  lemma OpenNeedsRoom(maxLen: nat, open: bool, body: string)
    requires maxLen >= 1 && (open ==> maxLen >= 3) && |body| <= Budget(maxLen, open)
    ensures LeavesOpen(open, body) ==> maxLen >= 3
  {
    FencesNeedRoom(Prefix(open) + body);
  }

  function PieceAt(text: string, maxLen: nat, i: nat, open: bool): (p: Piece)
    requires maxLen >= 1 && i < |text| && (open ==> maxLen >= 3)
    ensures p.close ==> maxLen >= 3
  {
    var body := text[i..Cut(text, i, Budget(maxLen, open))];
    OpenNeedsRoom(maxLen, open, body);
    Piece(open, body, LeavesOpen(open, body))
  }

  /** The pieces from a position on; those that render to white space only are dropped. */
  function Pieces(text: string, maxLen: nat, i: nat, open: bool): seq<Piece>
    requires maxLen >= 1 && i <= |text| && (open ==> maxLen >= 3)
    decreases |text| - i
  {
    if i == |text| then []
    else
      var p := PieceAt(text, maxLen, i, open);
      var rest := Pieces(text, maxLen, SkipBlanks(text, Cut(text, i, Budget(maxLen, open))), p.close);
      if NonBlank(Render(p)) then [p] + rest else rest
  }

  function RenderAll(ps: seq<Piece>): seq<string> {
    if ps == [] then [] else [Render(ps[0])] + RenderAll(ps[1..])
  }

  function Bodies(ps: seq<Piece>): string {
    if ps == [] then "" else ps[0].body + Bodies(ps[1..])
  }

  /** The whole function; lengths that are not positive leave the text as it is. */
  function Split(text: string, maxLen: int): seq<string> {
    if maxLen <= 0 then if text != "" then [text] else []
    else if |text| <= maxLen then if NonBlank(text) then [text] else []
    else RenderAll(Pieces(text, maxLen, 0, false))
  }

  // ---------------------------------------------------------------- method

  method RFind(text: string, c: char, lo: nat, hi: nat) returns (at: int)
    requires lo <= hi <= |text|
    ensures at == match LastIn(text, c, lo, hi) case Some(k) => k case None => -1
  {
    var k := hi;
    while k > lo
      invariant lo <= k <= hi && LastIn(text, c, lo, hi) == LastIn(text, c, lo, k)
    {
      k := k - 1;
      if text[k] == c {
        return k;
      }
    }
    return -1;
  }

  method CountFences(s: string) returns (n: nat)
    ensures n == Fences(s)
  {
    n := 0;
    var i := 0;
    while i < |s|
      invariant i <= |s| && Fences(s) == n + Fences(s[i..])
    {
      if i + 3 <= |s| && s[i..i + 3] == Fence {
        assert s[i..][..3] == Fence && s[i..][3..] == s[i + 3..];
        n := n + 1;
        i := i + 3;
      } else {
        assert |s[i..]| >= 3 ==> s[i..][..3] == s[i..i + 3];
        assert s[i..][1..] == s[i + 1..];
        i := i + 1;
      }
    }
  }

  /** The end of the piece that starts at `i`. */
  method FindCut(text: string, i: nat, budget: nat) returns (end: nat)
    requires i < |text| && budget >= 1
    ensures end == Cut(text, i, budget)
  {
    end := if i + budget < |text| then i + budget else |text|;
    if end < |text| {
      var nl := RFind(text, '\n', i, end);
      if nl > i + budget / 4 {
        end := nl;
      } else {
        var sp := RFind(text, ' ', i, end);
        if sp > i + budget / 4 {
          end := sp;
        }
      }
    }
  }

  /** The chunk for a stretch of text, closed if it leaves a fence open. */
  method MakeChunk(carry: string, body: string) returns (chunk: string, next: string)
    requires carry == Prefix(carry != "")
    ensures var p := Piece(carry != "", body, LeavesOpen(carry != "", body));
      chunk == Render(p) && next == Prefix(p.close)
  {
    chunk := carry + body;
    var fences := CountFences(chunk);
    if fences % 2 == 1 {
      chunk := chunk + Closing;
      next := Opening;
    } else {
      assert chunk + "" == chunk;
      next := "";
    }
  }

  method SplitPreservingCodeBlocks(text: string, maxLen: int) returns (chunks: seq<string>)
    ensures chunks == Split(text, maxLen)
  {
    hide Pieces, Fences, NonBlank, RenderAll, Render, SkipBlanks, Cut, LeavesOpen;
    if maxLen <= 0 {
      return if text != "" then [text] else [];
    }
    if |text| <= maxLen {
      return if NonBlank(text) then [text] else [];
    }
    chunks := [];
    var carry := "";
    var i := 0;
    assert [] + RenderAll(Pieces(text, maxLen, 0, false)) == RenderAll(Pieces(text, maxLen, 0, false));
    while i < |text|
      invariant i <= |text| && carry == Prefix(carry != "") && (carry != "" ==> maxLen >= 3)
      invariant Split(text, maxLen) == chunks + RenderAll(Pieces(text, maxLen, i, carry != ""))
      decreases |text| - i
    {
      var budget := if maxLen - |carry| > maxLen / 2 then maxLen - |carry| else maxLen / 2;
      var end := FindCut(text, i, budget);
      var chunk, next := MakeChunk(carry, text[i..end]);
      var start := SkipFrom(text, end);
      PiecesStep(text, maxLen, i, carry != "", start, chunks);
      if NonBlank(chunk) {
        chunks := chunks + [chunk];
      }
      i, carry := start, next;
    }
    NoPieces(text, maxLen, carry != "");
    assert chunks + [] == chunks;
  }

  lemma NoPieces(text: string, maxLen: nat, open: bool)
    requires maxLen >= 1 && (open ==> maxLen >= 3)
    ensures RenderAll(Pieces(text, maxLen, |text|, open)) == []
  {
  }

  method SkipFrom(text: string, start: nat) returns (i: nat)
    requires start <= |text|
    ensures i == SkipBlanks(text, start)
  {
    i := start;
    while i < |text| && text[i] in "\n "
      invariant start <= i <= |text| && SkipBlanks(text, start) == SkipBlanks(text, i)
    {
      i := i + 1;
    }
  }

  /** One turn of the loop takes one piece off what remains. */
  lemma PiecesStep(text: string, maxLen: nat, i: nat, open: bool, next: nat, chunks: seq<string>)
    requires maxLen >= 1 && i < |text| && (open ==> maxLen >= 3)
    requires next == SkipBlanks(text, Cut(text, i, Budget(maxLen, open)))
    ensures var p := PieceAt(text, maxLen, i, open);
      chunks + RenderAll(Pieces(text, maxLen, i, open))
      == (if NonBlank(Render(p)) then chunks + [Render(p)] else chunks) + RenderAll(Pieces(text, maxLen, next, p.close))
  {
    PiecesUnfold(text, maxLen, i, open, next);
    hide Pieces, PieceAt, NonBlank, Render, RenderAll, SkipBlanks, Cut, Budget;
    var p := PieceAt(text, maxLen, i, open);
    RenderFirst(p, Pieces(text, maxLen, next, p.close), chunks);
  }

  lemma PiecesUnfold(text: string, maxLen: nat, i: nat, open: bool, next: nat)
    requires maxLen >= 1 && i < |text| && (open ==> maxLen >= 3)
    requires next == SkipBlanks(text, Cut(text, i, Budget(maxLen, open)))
    ensures var p := PieceAt(text, maxLen, i, open);
      var rest := Pieces(text, maxLen, next, p.close);
      Pieces(text, maxLen, i, open) == if NonBlank(Render(p)) then [p] + rest else rest
  {
    hide PieceAt, NonBlank, Render, SkipBlanks, Cut, Budget;
  }

  lemma RenderFirst(p: Piece, rest: seq<Piece>, chunks: seq<string>)
    ensures chunks + RenderAll([p] + rest) == (chunks + [Render(p)]) + RenderAll(rest)
  {
    hide Render;
    assert ([p] + rest)[1..] == rest;
    assert RenderAll([p] + rest) == [Render(p)] + RenderAll(rest);
  }

  // ------------------------------------------------------------ properties

  lemma {:induction false} ClosingAddsFence(s: string)
    ensures Fences(s + Closing) == Fences(s) + 1
    decreases |s|
  {
    var t := s + Closing;
    if |s| < 3 {
      ShortClosing(s);
    } else {
      assert t[..3] == s[..3] && t[3..] == s[3..] + Closing && t[1..] == s[1..] + Closing;
      if s[..3] == Fence { ClosingAddsFence(s[3..]); } else { ClosingAddsFence(s[1..]); }
    }
  }

  lemma {:induction false} ShortClosing(s: string)
    requires |s| < 3
    ensures Fences(s + Closing) == 1
    decreases |s|
  {
    var t := s + Closing;
    assert t[|s|] == '\n';
    assert t[..3][|s|] == '\n';
    if s == [] {
      assert t[1..] == Fence;
      assert Fence[..3] == Fence && Fence[3..] == [];
    } else {
      assert t[1..] == s[1..] + Closing;
      ShortClosing(s[1..]);
    }
  }

  lemma PieceIsBalanced(text: string, maxLen: nat, i: nat, open: bool)
    requires maxLen >= 1 && i < |text| && (open ==> maxLen >= 3)
    ensures Fences(Render(PieceAt(text, maxLen, i, open))) % 2 == 0
    ensures |Render(PieceAt(text, maxLen, i, open))| <= Longest(maxLen)
  {
    hide Cut;
    var body := text[i..Cut(text, i, Budget(maxLen, open))];
    assert PieceAt(text, maxLen, i, open) == Piece(open, body, LeavesOpen(open, body));
    hide PieceAt;
    RenderedIsBalanced(Piece(open, body, LeavesOpen(open, body)));
  }

  lemma RenderedIsBalanced(p: Piece)
    requires p.close == LeavesOpen(p.open, p.body)
    ensures Fences(Render(p)) % 2 == 0 && |Render(p)| <= |Prefix(p.open)| + |p.body| + 4
  {
    var raw := Prefix(p.open) + p.body;
    ClosingAddsFence(raw);
    assert Render(p) == if p.close then raw + Closing else raw + "";
    assert raw + "" == raw;
    hide Fences, Prefix, Render;
  }

  function Longest(maxLen: nat): nat {
    (if maxLen > maxLen / 2 + 4 then maxLen else maxLen / 2 + 4) + 4
  }

  predicate Sound(c: string, maxLen: nat) {
    Fences(c) % 2 == 0 && |c| <= Longest(maxLen) && NonBlank(c)
  }

  /** Consecutive pieces hand over: one closes a fence exactly when the next reopens it. */
  predicate HandedOver(ps: seq<Piece>, open: bool) {
    (ps != [] ==> ps[0].open == open) && forall k :: 0 <= k < |ps| - 1 ==> ps[k + 1].open == ps[k].close
  }

  lemma TickIsSeen(c: string, i: nat)
    requires i < |c| && c[i] == '`'
    ensures NonBlank(c)
  {
    assert !IsBlank('`');
  }

  lemma FencedIsSeen(p: Piece)
    requires p.open || p.close
    ensures NonBlank(Render(p))
  {
    TickIsSeen(Render(p), if p.open then 0 else |Render(p)| - 1);
  }

  /** A piece that renders to white space has no fence open before or behind it, and only blanks in it. */
  lemma DroppedIsBlank(p: Piece)
    requires !NonBlank(Render(p))
    ensures !p.open && !p.close && Squeeze(p.body) == ""
  {
    if p.open || p.close {
      FencedIsSeen(p);
    } else {
      assert Render(p) == p.body;
      BlankSqueezes(p.body);
    }
  }

  lemma {:induction false} BlankSqueezes(s: string)
    requires !NonBlank(s)
    ensures Squeeze(s) == ""
    decreases |s|
  {
    if s != [] {
      assert IsBlank(s[0]);
      assert forall i :: 0 <= i < |s[1..]| ==> s[1..][i] == s[i + 1];
      BlankSqueezes(s[1..]);
    }
  }

  lemma {:induction false} SqueezeAppends(a: string, b: string)
    ensures Squeeze(a + b) == Squeeze(a) + Squeeze(b)
    decreases |a|
  {
    if a == [] {
      assert a + b == b;
    } else {
      assert (a + b)[1..] == a[1..] + b;
      SqueezeAppends(a[1..], b);
    }
  }

  lemma {:induction false} SkippedIsBlank(text: string, i: nat)
    requires i <= |text|
    ensures Squeeze(text[i..]) == Squeeze(text[SkipBlanks(text, i)..])
    decreases |text| - i
  {
    if i < |text| && text[i] in "\n " {
      assert text[i..][1..] == text[i + 1..];
      SkippedIsBlank(text, i + 1);
    }
  }

  /** Every chunk is balanced, short enough and not blank, fences are handed over, and no text is lost or invented. */
  lemma {:induction false} PiecesAreSound(text: string, maxLen: nat, i: nat, open: bool)
    requires maxLen >= 1 && i <= |text| && (open ==> maxLen >= 3)
    ensures var ps := Pieces(text, maxLen, i, open);
      && (forall k :: 0 <= k < |ps| ==> Sound(Render(ps[k]), maxLen))
      && HandedOver(ps, open)
      && Squeeze(Bodies(ps)) == Squeeze(text[i..])
    decreases |text| - i
  {
    if i < |text| {
      var p := PieceAt(text, maxLen, i, open);
      var end := Cut(text, i, Budget(maxLen, open));
      var next := SkipBlanks(text, end);
      PiecesAreSound(text, maxLen, next, p.close);
      PieceIsBalanced(text, maxLen, i, open);
      ContentAt(text, i, end, next, p.body);
      var rest := Pieces(text, maxLen, next, p.close);
      assert p.open == open;
      assert Pieces(text, maxLen, i, open) == if NonBlank(Render(p)) then [p] + rest else rest;
      hide PieceAt, Cut, Budget, SkipBlanks, Fences, NonBlank, Pieces, Render, HandedOver, Bodies, Squeeze;
      if NonBlank(Render(p)) {
        PieceInFront(p, rest, maxLen);
      } else {
        DroppedIsBlank(p);
        assert "" + Squeeze(Bodies(rest)) == Squeeze(Bodies(rest));
      }
    }
  }

  /** What remains of the text: the piece, and what follows the blanks behind it. */
  lemma ContentAt(text: string, i: nat, end: nat, next: nat, body: string)
    requires i <= end <= next <= |text| && next == SkipBlanks(text, end) && body == text[i..end]
    ensures Squeeze(text[i..]) == Squeeze(body) + Squeeze(text[next..])
  {
    SkippedIsBlank(text, end);
    assert text[i..] == body + text[end..];
    SqueezeAppends(body, text[end..]);
  }

  lemma PieceInFront(p: Piece, rest: seq<Piece>, maxLen: nat)
    requires Sound(Render(p), maxLen) && HandedOver(rest, p.close)
    requires forall k :: 0 <= k < |rest| ==> Sound(Render(rest[k]), maxLen)
    ensures var ps := [p] + rest;
      && (forall k :: 0 <= k < |ps| ==> Sound(Render(ps[k]), maxLen))
      && HandedOver(ps, p.open)
      && Squeeze(Bodies(ps)) == Squeeze(p.body) + Squeeze(Bodies(rest))
  {
    hide Sound, Render;
    var ps := [p] + rest;
    assert ps[1..] == rest;
    SqueezeAppends(p.body, Bodies(rest));
    assert forall k :: 0 < k < |ps| ==> ps[k] == rest[k - 1];
  }

  lemma {:induction false} RenderAllAt(ps: seq<Piece>)
    ensures |RenderAll(ps)| == |ps| && forall k :: 0 <= k < |ps| ==> RenderAll(ps)[k] == Render(ps[k])
  {
    if ps != [] {
      RenderAllAt(ps[1..]);
    }
  }

  /**
   For text longer than a positive limit: balanced bounded chunks that are the text in order, but for white space and
   inserted fences.
   */
  lemma SplitPreserves(text: string, maxLen: nat) returns (ps: seq<Piece>)
    requires 0 < maxLen < |text|
    ensures Split(text, maxLen) == RenderAll(ps) && |ps| == |Split(text, maxLen)|
    ensures forall k :: 0 <= k < |ps| ==> Split(text, maxLen)[k] == Render(ps[k]) && Sound(Render(ps[k]), maxLen)
    ensures HandedOver(ps, false) && Squeeze(Bodies(ps)) == Squeeze(text)
  {
    ps := Pieces(text, maxLen, 0, false);
    PiecesAreSound(text, maxLen, 0, false);
    RenderAllAt(ps);
    assert text[0..] == text;
  }

  // ------------------------------------------------ the documented limit

  predicate WithinLimit(chunks: seq<string>, maxLen: int) {
    forall k :: 0 <= k < |chunks| ==> |chunks[k]| <= maxLen
  }

  /** The text has no fence in it, anywhere. */
  ghost predicate FenceFree(text: string) {
    forall i: nat :: !FenceAt(text, i)
  }

  predicate FenceAt(text: string, i: nat) {
    i + 3 <= |text| && text[i..i + 3] == Fence
  }

  lemma {:induction false} FenceFreeCountsNone(text: string, i: nat, j: nat)
    requires FenceFree(text) && i <= j <= |text|
    ensures Fences(text[i..j]) == 0
    decreases j - i
  {
    var s := text[i..j];
    if |s| >= 3 {
      assert !FenceAt(text, i) && s[..3] == text[i..i + 3] && s[1..] == text[i + 1..j];
      FenceFreeCountsNone(text, i + 1, j);
    }
  }

  /** As long as no fence is open, a chunk that needs no closing is the piece of text itself. */
  lemma {:induction false} PlainPiecesFit(text: string, maxLen: nat, i: nat)
    requires maxLen >= 1 && i <= |text| && (maxLen < 3 || FenceFree(text))
    ensures WithinLimit(RenderAll(Pieces(text, maxLen, i, false)), maxLen)
    decreases |text| - i
  {
    if i < |text| {
      var end := Cut(text, i, Budget(maxLen, false));
      var p := PieceAt(text, maxLen, i, false);
      var next := SkipBlanks(text, end);
      if maxLen >= 3 {
        FenceFreeCountsNone(text, i, end);
        assert Prefix(false) + p.body == p.body;
      }
      assert !p.close && Render(p) == p.body && |p.body| <= maxLen;
      PlainPiecesFit(text, maxLen, next);
      PiecesUnfold(text, maxLen, i, false, next);
      hide Pieces, PieceAt, NonBlank, Render, Cut, SkipBlanks;
      var rest := Pieces(text, maxLen, next, false);
      assert ([p] + rest)[1..] == rest;
    }
  }

  /** Text without fences never yields a chunk over the limit. */
  lemma FenceFreeTextFits(text: string, maxLen: nat)
    requires maxLen >= 1 && FenceFree(text)
    ensures WithinLimit(Split(text, maxLen), maxLen)
  {
    if |text| > maxLen {
      PlainPiecesFit(text, maxLen, 0);
    }
  }

  lemma SmallLimitsHold(text: string, maxLen: nat)
    requires 1 <= maxLen < 3
    ensures WithinLimit(Split(text, maxLen), maxLen)
  {
    if |text| > maxLen {
      PlainPiecesFit(text, maxLen, 0);
    }
  }

  function Letters(n: nat): (s: string)
    ensures |s| == n && forall i :: 0 <= i < n ==> s[i] == 'a'
  {
    if n == 0 then "" else "a" + Letters(n - 1)
  }

  lemma {:induction false} LettersHaveNoFence(s: string)
    requires forall i :: 0 <= i < |s| ==> s[i] == 'a'
    ensures Fences(s) == 0
    decreases |s|
  {
    if |s| >= 3 {
      assert s[..3][0] == 'a';
      LettersHaveNoFence(s[1..]);
    }
  }

  /** A fence and then letters: the first chunk ends in its middle, and the closing fence does not fit. */
  lemma FirstChunkOverflows(maxLen: nat) returns (text: string)
    requires maxLen >= 3
    ensures var chunks := Split(text, maxLen); |text| == maxLen + 3 && chunks != [] && |chunks[0]| == maxLen + 4
  {
    text := Fence + Letters(maxLen);
    var body := text[..maxLen];
    NothingToBreakAt(text, 0, maxLen);
    assert Cut(text, 0, Budget(maxLen, false)) == maxLen;
    assert text[0..maxLen] == body;
    OneFence(body);
    assert Prefix(false) + body == body;
    var p := PieceAt(text, maxLen, 0, false);
    assert p == Piece(false, body, true);
    TickIsSeen(Render(p), 0);
    var next := SkipBlanks(text, maxLen);
    PiecesUnfold(text, maxLen, 0, false, next);
    assert |Render(p)| == maxLen + 4;
    hide Pieces, PieceAt, NonBlank, Render, Cut, SkipBlanks, Fences;
    assert Pieces(text, maxLen, 0, false)[0] == p;
    RenderAllAt(Pieces(text, maxLen, 0, false));
  }

  lemma NothingToBreakAt(text: string, lo: nat, hi: nat)
    requires lo <= hi <= |text| && forall k :: lo <= k < hi ==> text[k] != '\n' && text[k] != ' '
    ensures LastIn(text, '\n', lo, hi) == None && LastIn(text, ' ', lo, hi) == None
  {
  }

  lemma OneFence(s: string)
    requires |s| >= 3 && s[..3] == Fence && forall i :: 3 <= i < |s| ==> s[i] == 'a'
    ensures Fences(s) == 1
  {
    LettersHaveNoFence(s[3..]);
  }

  /** For positive limits, chunks stay within the limit for all texts exactly when it is below three. */
  lemma LimitIsExact(maxLen: nat)
    requires maxLen >= 1
    ensures maxLen < 3 <==> forall text :: WithinLimit(Split(text, maxLen), maxLen)
  {
    if maxLen < 3 {
      forall text ensures WithinLimit(Split(text, maxLen), maxLen) {
        SmallLimitsHold(text, maxLen);
      }
    } else {
      var text := FirstChunkOverflows(maxLen);
      assert !WithinLimit(Split(text, maxLen), maxLen);
    }
  }

  /** Reopened and closed fences come on top of the limit, up to the bound of every chunk: here it is reached. */
  lemma LongestIsReached()
    ensures "```\na\n```" in Split("```abc", 3) && |"```\na\n```"| == Longest(3) == 9
  {
    var text, first, second := "```abc", Piece(false, "```", true), Piece(true, "a", true);
    FirstTurn(text);
    SecondTurn(text);
    hide Pieces, PieceAt, NonBlank, Render, Cut, SkipBlanks, Fences;
    var ps := Pieces(text, 3, 0, false);
    assert ps[1] == second;
    RenderAllAt(ps);
    assert Split(text, 3)[1] == Render(second);
  }

  lemma FirstTurn(text: string)
    requires text == "```abc"
    ensures Pieces(text, 3, 0, false) == [Piece(false, "```", true)] + Pieces(text, 3, 3, true)
  {
    var first := Piece(false, "```", true);
    NothingToBreakAt(text, 0, 3);
    assert Cut(text, 0, Budget(3, false)) == 3 && text[0..3] == "```";
    OneFence("```");
    assert Prefix(false) + "```" == "```";
    assert PieceAt(text, 3, 0, false) == first && SkipBlanks(text, 3) == 3;
    TickIsSeen(Render(first), 0);
    hide Pieces, PieceAt, NonBlank, Cut, Fences;
    PiecesUnfold(text, 3, 0, false, 3);
  }

  lemma SecondTurn(text: string)
    requires text == "```abc"
    ensures Pieces(text, 3, 3, true) == [Piece(true, "a", true)] + Pieces(text, 3, 4, true)
    ensures Render(Piece(true, "a", true)) == "```\na\n```"
  {
    var second := Piece(true, "a", true);
    NothingToBreakAt(text, 3, 4);
    assert Cut(text, 3, Budget(3, true)) == 4 && text[3..4] == "a";
    OpenedCount("a");
    assert PieceAt(text, 3, 3, true) == second && SkipBlanks(text, 4) == 4;
    assert Render(second) == "```\na\n```";
    TickIsSeen(Render(second), 0);
    hide Pieces, PieceAt, NonBlank, Cut, Fences;
    PiecesUnfold(text, 3, 3, true, 4);
  }

  lemma OpenedCount(body: string)
    requires |body| == 1 && body != "`"
    ensures Fences(Opening + body) == 1
  {
    var s := Opening + body;
    assert s[..3] == Fence && |s[3..]| == 2;
  }
}
