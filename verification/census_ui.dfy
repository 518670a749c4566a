/** The input side of the process table window (hello1.cpp, `main`):
    header clicks choose the ordering column and keyboard events edit the
    search query. Button clicks that launch other programs, drawing and the
    half-second delay are not modelled. */
module CensusUi {
  import opened ProcessCensus
  import opened Wrappers

  /** A screen rectangle: top-left corner, width, height. */
  datatype Rect = Rect(x: int, y: int, w: int, h: int)

  /** The hit test: all four edges count as inside. */
  predicate IsInside(px: int, py: int, r: Rect) {
    px >= r.x && px <= r.x + r.w && py >= r.y && py <= r.y + r.h
  }

  /** The four column headers, left to right: PID, CPU%, MEM%, NAME. */
  const HeaderRects: seq<Rect> :=
    [Rect(20, 50, 80, 25), Rect(120, 50, 80, 25), Rect(220, 50, 80, 25), Rect(320, 50, 200, 25)]

  /** The column a header index stands for. */
  function FromIndex(i: nat): (k: SortType)
    requires i < 4
    ensures k == [Pid, Cpu, Mem, Name][i]
  {
    if i == 0 then Pid else if i == 1 then Cpu else if i == 2 then Mem else Name
  }

  /** The header loop from index `i` on: every header hit sets its column.
      A miss on the remaining headers keeps the column; a hit on one of them
      selects it, since no later header shares the point. */
  function ClickFrom(i: nat, current: SortType, px: int, py: int): (r: SortType)
    requires i <= 4
    ensures (forall j :: i <= j < 4 ==> !IsInside(px, py, HeaderRects[j])) ==> r == current
    ensures forall j :: i <= j < 4 && IsInside(px, py, HeaderRects[j]) ==> r == FromIndex(j)
    decreases 4 - i
  {
    if i == 4 then current
    else ClickFrom(i + 1, if IsInside(px, py, HeaderRects[i]) then FromIndex(i) else current, px, py)
  }

  /** The column selected after a click at (px, py). */
  function ClickSort(current: SortType, px: int, py: int): SortType {
    ClickFrom(0, current, px, py)
  }

  /** A rectangle with non-negative size contains its four corners, and
      one step past any edge is outside. */
  lemma EdgesInclusive(r: Rect)
    requires r.w >= 0 && r.h >= 0
    ensures IsInside(r.x, r.y, r) && IsInside(r.x + r.w, r.y, r)
    ensures IsInside(r.x, r.y + r.h, r) && IsInside(r.x + r.w, r.y + r.h, r)
    ensures !IsInside(r.x - 1, r.y, r) && !IsInside(r.x + r.w + 1, r.y, r)
    ensures !IsInside(r.x, r.y - 1, r) && !IsInside(r.x, r.y + r.h + 1, r)
  {
  }

  /** The hit test depends only on the point's offset from the top-left
      corner, and a rectangle of negative size contains no point. */
  lemma InsideByOffset(px: int, py: int, r: Rect)
    ensures IsInside(px, py, r) <==> IsInside(px - r.x, py - r.y, Rect(0, 0, r.w, r.h))
    ensures r.w < 0 || r.h < 0 ==> !IsInside(px, py, r)
  {
  }

  /** No point lies in two headers. */
  lemma HeadersDisjoint(px: int, py: int, i: nat, j: nat)
    requires i < 4 && j < 4 && i != j
    ensures !(IsInside(px, py, HeaderRects[i]) && IsInside(px, py, HeaderRects[j]))
  {
  }

  /** A click inside header `i` selects column `i`; a click outside all
      four headers leaves the selection unchanged. */
  lemma ClickSelectsHeader(current: SortType, px: int, py: int)
    ensures forall i :: 0 <= i < 4 && IsInside(px, py, HeaderRects[i]) ==>
              ClickSort(current, px, py) == FromIndex(i)
    ensures (forall i :: 0 <= i < 4 ==> !IsInside(px, py, HeaderRects[i])) ==>
              ClickSort(current, px, py) == current
  {
  }

  datatype Key = Backspace | OtherKey(code: int)

  /** The window events the table reacts to. */
  datatype Event =
    | Quit
    | MouseDown(x: int, y: int)
    | TextInput(text: string)
    | KeyDown(key: Key)
    | OtherEvent

  /** Text input appends; backspace removes the last character of a
      non-empty query; nothing else touches the query. */
  function EditQuery(q: string, e: Event): (r: string)
    ensures e.TextInput? ==> |r| == |q| + |e.text| && r[..|q|] == q && r[|q|..] == e.text
    ensures e == KeyDown(Backspace) && q != [] ==> q == r + [q[|q| - 1]]
    ensures !e.TextInput? && !(e == KeyDown(Backspace) && q != []) ==> r == q
  {
    match e
    case TextInput(t) => q + t
    case KeyDown(Backspace) => if q != [] then q[..|q| - 1] else q
    case _ => q
  }

  /** Everything the event loop carries from one frame to the next. */
  datatype UiState = UiState(sort: SortType, query: string, running: bool)

  /** The table starts ordered by CPU with an empty query. */
  const InitialUi: UiState := UiState(Cpu, "", true)

  function HandleEvent(s: UiState, e: Event): (r: UiState)
    ensures r.running == (s.running && !e.Quit?)
    ensures !e.MouseDown? ==> r.sort == s.sort
    ensures e.MouseDown? ==> r.query == s.query
    ensures r.query == EditQuery(s.query, e)
    ensures e.MouseDown? ==> r.sort == ClickSort(s.sort, e.x, e.y)
  {
    UiState(
      if e.MouseDown? then ClickSort(s.sort, e.x, e.y) else s.sort,
      EditQuery(s.query, e),
      s.running && !e.Quit?)
  }

  /** One frame's event queue, handled in order. The loop keeps running
      exactly when it was running and no event in the queue was a quit. */
  function HandleEvents(s: UiState, es: seq<Event>): (r: UiState)
    ensures r.running <==> s.running && forall i :: 0 <= i < |es| ==> !es[i].Quit?
    decreases |es|
  {
    if es == [] then s else HandleEvents(HandleEvent(s, es[0]), es[1..])
  }

  /** A quit does not end the queue: the events after it in the same frame
      are still handled, from a state that is no longer running. */
  lemma QuitKeepsHandling(s: UiState, es: seq<Event>)
    ensures HandleEvents(s, [Quit] + es) == HandleEvents(s.(running := false), es)
  {
    assert ([Quit] + es)[0] == Quit && ([Quit] + es)[1..] == es;
  }

  /** Events other than mouse clicks never change the selected column. */
  lemma {:induction false} NoClickKeepsSort(s: UiState, es: seq<Event>)
    requires forall i :: 0 <= i < |es| ==> !es[i].MouseDown?
    ensures HandleEvents(s, es).sort == s.sort
    decreases |es|
  {
    if es != [] {
      NoClickKeepsSort(HandleEvent(s, es[0]), es[1..]);
    }
  }

  /** Until a header is clicked, the table is ordered by CPU, descending. */
  lemma DefaultOrderIsCpu(es: seq<Event>, output: Option<seq<string>>)
    requires forall i :: 0 <= i < |es| ==> !es[i].MouseDown?
    ensures HandleEvents(InitialUi, es).sort == Cpu
    ensures forall i, j :: 0 <= i < j < |Table(HandleEvents(InitialUi, es), output)| ==>
      Table(HandleEvents(InitialUi, es), output)[i].cpu >= Table(HandleEvents(InitialUi, es), output)[j].cpu
  {
    NoClickKeepsSort(InitialUi, es);
    SortedByMeansInOrder(Cpu, Table(HandleEvents(InitialUi, es), output));
  }

  function Backspaces(n: nat): (es: seq<Event>)
    ensures |es| == n
    ensures forall i :: 0 <= i < n ==> es[i] == KeyDown(Backspace)
  {
    if n == 0 then [] else [KeyDown(Backspace)] + Backspaces(n - 1)
  }

  /** Backspacing over a non-empty query `n` times drops its last `n`
      characters, and backspacing an empty query changes nothing. */
  lemma {:induction false} BackspacesTrim(s: UiState, n: nat)
    ensures HandleEvents(s, Backspaces(n)).query
         == s.query[..if n <= |s.query| then |s.query| - n else 0]
    ensures HandleEvents(s, Backspaces(n)).sort == s.sort
    decreases n
  {
    if n > 0 {
      var s' := HandleEvent(s, KeyDown(Backspace));
      BackspacesTrim(s', n - 1);
      assert Backspaces(n)[1..] == Backspaces(n - 1);
      if s.query == [] {
        assert s.query[..0] == [];
      }
    } else {
      assert s.query[..|s.query|] == s.query;
    }
  }

  /** Typing some text and then one backspace per typed character gives the
      query back unchanged. */
  lemma TypingThenErasing(s: UiState, t: string)
    ensures HandleEvents(s, [TextInput(t)] + Backspaces(|t|)).query == s.query
  {
    var es := [TextInput(t)] + Backspaces(|t|);
    assert es[0] == TextInput(t) && es[1..] == Backspaces(|t|);
    var s' := HandleEvent(s, TextInput(t));
    BackspacesTrim(s', |t|);
  }

  /** The table shown for a state: the query plays no part, so every parsed
      record is listed whatever has been typed. */
  function Table(s: UiState, output: Option<seq<string>>): (r: seq<ProcessInfo>)
    ensures multiset(r) == multiset(GetProcesses(output))
    ensures SortedBy(s.sort, r)
  {
    Snapshot(output, s.sort)
  }
}
