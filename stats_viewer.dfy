/**
 * The stats viewer's screen state: the games read from the usage file, how
 * far the list is scrolled, and the selector mode in which every game is
 * listed and a selected one can be hidden or shown again.  The screen shows
 * five rows at a time.
 */
module StatsViewer {
  import opened Common
  import opened StatsApp

  /** Rows of games on screen at once. */
  const ROWS: nat := 5

  /** The games listed outside selector mode: the ones not hidden, in order. */
  function Shown(games: seq<GameStats>): (r: seq<GameStats>)
    ensures |r| <= |games|
    ensures forall g :: g in r ==> g in games && !g.hidden
    ensures forall g :: g in games && !g.hidden ==> g in r
  {
    if games == [] then []
    else
      assert forall g :: g in games ==> g == games[0] || g in games[1..];
      (if games[0].hidden then [] else [games[0]]) + Shown(games[1..])
  }

  /** The furthest the list scrolls when `count` games are listed (`saturating_sub(5)`). */
  function MaxScroll(count: nat): (r: nat)
    ensures r + ROWS >= count
    ensures r > 0 ==> r + ROWS == count
  {
    if count > ROWS then count - ROWS else 0
  }

  /** `games` with the hidden flag of game `i` flipped and nothing else changed. */
  function Flip(games: seq<GameStats>, i: nat): (r: seq<GameStats>)
    requires i < |games|
    ensures |r| == |games| && r[i] == games[i].(hidden := !games[i].hidden)
    ensures forall j :: 0 <= j < |games| && j != i ==> r[j] == games[j]
  {
    games[i := games[i].(hidden := !games[i].hidden)]
  }

  /** Toggling the same game twice restores the list. */
  lemma FlipTwice(games: seq<GameStats>, i: nat)
    requires i < |games|
    ensures Flip(Flip(games, i), i) == games
  {
  }

  /** Hiding a game takes one row off the normal list; showing it adds one. */
  lemma {:induction false} FlipShownCount(games: seq<GameStats>, i: nat)
    requires i < |games|
    ensures games[i].hidden ==> |Shown(Flip(games, i))| == |Shown(games)| + 1
    ensures !games[i].hidden ==> |Shown(Flip(games, i))| + 1 == |Shown(games)|
  {
    var f := Flip(games, i);
    if i == 0 {
      assert f[1..] == games[1..];
    } else {
      assert f[1..] == Flip(games[1..], i - 1);
      FlipShownCount(games[1..], i - 1);
    }
  }

  /**
   * The scroll after Up (one row back, never below zero) and then Down
   * (one row on while a full screen of the `count` listed games remains).
   */
  function ScrollStep(offset: nat, count: nat, up: bool, down: bool): (r: nat)
    ensures r <= offset + 1 && offset <= r + 1
    ensures offset <= MaxScroll(count) ==> r <= MaxScroll(count)
    ensures !up && !down ==> r == offset
  {
    var o := if up && offset > 0 then offset - 1 else offset;
    if down && o < MaxScroll(count) then o + 1 else o
  }

  /** Pressing Up and Down together leaves a scroll strictly inside its range where it was. */
  lemma ScrollUpDownCancel(offset: nat, count: nat)
    requires 0 < offset <= MaxScroll(count)
    ensures ScrollStep(offset, count, true, true) == offset
  {
  }

  /**
   * The selection and scroll after Up (the previous game, scrolling back to
   * it when above the screen) and then Down (the next of the `count` listed
   * games, scrolling on to it when below the screen).
   */
  function SelectStep(sel: nat, offset: nat, count: nat, up: bool, down: bool): (r: (nat, nat))
    ensures r.0 <= sel + 1 && sel <= r.0 + 1
    ensures sel < count ==> r.0 < count
    ensures offset <= sel < offset + ROWS ==> r.1 <= r.0 < r.1 + ROWS
    ensures !up && !down ==> r == (sel, offset)
  {
    var s1 := if up && sel > 0 then sel - 1 else sel;
    var o1 := if up && sel > 0 && sel - 1 < offset then sel - 1 else offset;
    if down && s1 + 1 < count then (s1 + 1, if s1 + 1 >= o1 + ROWS then s1 + 1 - (ROWS - 1) else o1)
    else (s1, o1)
  }

  /** Up and Down together are Up followed by Down. */
  lemma SelectStepSplit(sel: nat, offset: nat, count: nat, up: bool, down: bool)
    ensures var m := SelectStep(sel, offset, count, up, false);
      SelectStep(sel, offset, count, up, down) == SelectStep(m.0, m.1, count, false, down)
  {
  }

  /** Up and Down together from a row on screen with games above and below leave the selection where it was. */
  lemma SelectUpDownCancel(sel: nat, offset: nat, count: nat)
    requires 0 < sel && sel < count && offset <= sel < offset + ROWS
    ensures SelectStep(sel, offset, count, true, true).0 == sel
  {
  }

  /** The status line after the selected game's flag was toggled. */
  function ToggleMessage(g: GameStats): (r: seq<CChar>)
    ensures g.hidden ==> r == "Hidden: " + g.title
    ensures !g.hidden ==> r == "Shown: " + g.title
  {
    (if g.hidden then "Hidden: " else "Shown: ") + g.title
  }

  class AppState {
    var stats: StatsData
    var scrollOffset: nat
    var shouldExit: bool
    var statusMessage: seq<CChar>
    /** Every game is listed, and the selected one can be hidden or shown. */
    var selectorMode: bool
    /** Index of the selected game in the listed games. */
    var selectedIndex: nat

    /**
     * The scroll never passes the last full screen of all games, and the
     * selection is a game or, with no games, zero.
     */
    ghost predicate Valid()
      reads this
    {
      scrollOffset <= MaxScroll(|stats.games|)
      && (selectedIndex < |stats.games| || selectedIndex == 0)
    }

    /** The selected row is one of the five on screen. */
    ghost predicate SelectionOnScreen()
      reads this
    {
      scrollOffset <= selectedIndex < scrollOffset + ROWS
    }

    constructor (stats: StatsData)
      ensures this.stats == stats && scrollOffset == 0 && !shouldExit && statusMessage == []
      ensures !selectorMode && selectedIndex == 0
      ensures Valid()
    {
      this.stats := stats;
      scrollOffset := 0;
      shouldExit := false;
      statusMessage := [];
      selectorMode := false;
      selectedIndex := 0;
    }

    /** How many games are listed: all in selector mode, the shown ones otherwise. */
    function VisibleCount(): (r: nat)
      reads this
      ensures r <= |stats.games|
      ensures selectorMode ==> r == |stats.games|
      ensures !selectorMode ==> r == |Shown(stats.games)|
    {
      if selectorMode then |stats.games| else |Shown(stats.games)|
    }

    /** The game at the selection in the listed games, if there is one there. */
    function SelectedGame(): (r: Option<GameStats>)
      reads this
      ensures r.Some? <==> selectedIndex < VisibleCount()
      ensures r.Some? ==> r.value in stats.games
      ensures r.Some? && !selectorMode ==> !r.value.hidden
      ensures r.Some? && selectorMode ==> r.value == stats.games[selectedIndex]
    {
      if selectorMode then
        if selectedIndex < |stats.games| then Some(stats.games[selectedIndex]) else None
      else
        var shown := Shown(stats.games);
        if selectedIndex < |shown| then
          assert shown[selectedIndex] in shown;
          Some(shown[selectedIndex])
        else None
    }

    /** `scroll_up`: one row back, never below zero. */
    method ScrollUp()
      modifies this`scrollOffset
      ensures old(scrollOffset) > 0 ==> scrollOffset + 1 == old(scrollOffset)
      ensures old(scrollOffset) == 0 ==> scrollOffset == 0
      ensures scrollOffset == ScrollStep(old(scrollOffset), VisibleCount(), true, false)
      ensures old(Valid()) ==> Valid()
    {
      if scrollOffset > 0 {
        scrollOffset := scrollOffset - 1;
      }
    }

    /** `scroll_down`: one row on, while a full screen of listed games remains below. */
    method ScrollDown()
      modifies this`scrollOffset
      ensures old(scrollOffset) < MaxScroll(VisibleCount()) ==> scrollOffset == old(scrollOffset) + 1
      ensures old(scrollOffset) >= MaxScroll(VisibleCount()) ==> scrollOffset == old(scrollOffset)
      ensures old(scrollOffset) <= MaxScroll(VisibleCount()) ==> scrollOffset <= MaxScroll(VisibleCount())
      ensures scrollOffset == ScrollStep(old(scrollOffset), VisibleCount(), false, true)
      ensures old(Valid()) ==> Valid()
    {
      var maxScroll := MaxScroll(VisibleCount());
      if scrollOffset < maxScroll {
        scrollOffset := scrollOffset + 1;
      }
    }

    /** `select_up`: the previous game, scrolling back to it when it is above the screen. */
    method SelectUp()
      modifies this`selectedIndex, this`scrollOffset
      ensures old(selectedIndex) > 0 ==> selectedIndex + 1 == old(selectedIndex)
      ensures old(selectedIndex) > 0 && selectedIndex < old(scrollOffset) ==> scrollOffset == selectedIndex
      ensures old(selectedIndex) > 0 && selectedIndex >= old(scrollOffset) ==> scrollOffset == old(scrollOffset)
      ensures old(selectedIndex) == 0 ==> selectedIndex == 0 && scrollOffset == old(scrollOffset)
      ensures old(selectedIndex) > 0 ==> scrollOffset <= selectedIndex
      ensures (selectedIndex, scrollOffset) == SelectStep(old(selectedIndex), old(scrollOffset), VisibleCount(), true, false)
      ensures old(Valid()) ==> Valid()
      ensures old(SelectionOnScreen()) ==> SelectionOnScreen()
    {
      if selectedIndex > 0 {
        selectedIndex := selectedIndex - 1;
        if selectedIndex < scrollOffset {
          scrollOffset := selectedIndex;
        }
      }
    }

    /** `select_down`: the next listed game, scrolling on to it when it is below the screen. */
    method SelectDown()
      modifies this`selectedIndex, this`scrollOffset
      ensures old(selectedIndex) + 1 < VisibleCount() ==> selectedIndex == old(selectedIndex) + 1
      ensures old(selectedIndex) + 1 < VisibleCount() && selectedIndex >= old(scrollOffset) + ROWS
        ==> scrollOffset + ROWS == selectedIndex + 1
      ensures old(selectedIndex) + 1 < VisibleCount() && selectedIndex < old(scrollOffset) + ROWS
        ==> scrollOffset == old(scrollOffset)
      ensures old(selectedIndex) + 1 >= VisibleCount()
        ==> selectedIndex == old(selectedIndex) && scrollOffset == old(scrollOffset)
      ensures old(selectedIndex) + 1 < VisibleCount() ==> selectedIndex < VisibleCount() && selectedIndex < scrollOffset + ROWS
      ensures (selectedIndex, scrollOffset) == SelectStep(old(selectedIndex), old(scrollOffset), VisibleCount(), false, true)
      ensures old(Valid()) ==> Valid()
      ensures old(SelectionOnScreen()) ==> SelectionOnScreen()
    {
      var visible := VisibleCount();
      if selectedIndex + 1 < visible {
        selectedIndex := selectedIndex + 1;
        if selectedIndex >= scrollOffset + ROWS {
          scrollOffset := selectedIndex - (ROWS - 1);
        }
      }
    }

    /** `toggle_selector_mode`: entering selects the top row on screen. */
    method ToggleSelectorMode()
      modifies this`selectorMode, this`selectedIndex
      ensures selectorMode == !old(selectorMode)
      ensures selectorMode ==> selectedIndex == scrollOffset
      ensures !selectorMode ==> selectedIndex == old(selectedIndex)
      ensures selectorMode ==> SelectionOnScreen()
      ensures old(Valid()) ==> Valid()
    {
      selectorMode := !selectorMode;
      if selectorMode {
        selectedIndex := scrollOffset;
      }
    }

    /**
     * `toggle_selected_hidden`: in selector mode, flips the hidden flag of
     * the selected game; `persisted` is whether writing the flag back to
     * the usage file succeeded, which is the result.  Outside selector
     * mode, or with no game selected, nothing changes and the result is
     * false.
     */
    method ToggleSelectedHidden(persisted: bool) returns (ok: bool)
      modifies this`stats
      ensures !selectorMode || selectedIndex >= |old(stats.games)| ==> !ok && stats == old(stats)
      ensures selectorMode && selectedIndex < |old(stats.games)|
        ==> stats == old(stats).(games := Flip(old(stats.games), selectedIndex)) && ok == persisted
      ensures |stats.games| == |old(stats.games)|
      ensures old(Valid()) ==> Valid()
    {
      if !selectorMode {
        return false;
      }
      if selectedIndex < |stats.games| {
        stats := stats.(games := Flip(stats.games, selectedIndex));
        ok := persisted;
      } else {
        ok := false;
      }
    }

    /**
     * `handle_input` for one reading of the buttons: Square toggles
     * selector mode; then, in selector mode, Cross toggles the selected
     * game's hidden flag and reports it, and Up and Down move the
     * selection; outside it, Up and Down scroll.
     */
    method HandleInput(square: bool, cross: bool, up: bool, down: bool, persisted: bool)
      modifies this
      ensures selectorMode == (old(selectorMode) != square)
      ensures |stats.games| == |old(stats.games)|
      ensures !selectorMode ==>
        && stats == old(stats) && statusMessage == old(statusMessage)
        && selectedIndex == old(selectedIndex)
        && scrollOffset == ScrollStep(old(scrollOffset), |Shown(old(stats.games))|, up, down)
      ensures selectorMode ==>
        var games := old(stats.games);
        var sel := if square then old(scrollOffset) else old(selectedIndex);
        && (selectedIndex, scrollOffset) == SelectStep(sel, old(scrollOffset), |games|, up, down)
        && stats == (if cross && sel < |games| then old(stats).(games := Flip(games, sel)) else old(stats))
        && statusMessage == (if cross && sel < |games| && persisted then ToggleMessage(Flip(games, sel)[sel]) else old(statusMessage))
      ensures shouldExit == old(shouldExit)
      ensures old(Valid()) ==> Valid()
      ensures old(selectorMode ==> SelectionOnScreen()) ==> (selectorMode ==> SelectionOnScreen())
    {
      if square {
        ToggleSelectorMode();
      }
      if selectorMode {
        SelectorInput(cross, up, down, persisted);
      } else {
        if up {
          ScrollUp();
        }
        if down {
          ScrollDown();
        }
      }
    }

    /**
     * The selector-mode half of `handle_input`: Cross flips the selected
     * game's flag and, when that was written back, reports it; then Up and
     * Down move the selection.
     */
    method SelectorInput(cross: bool, up: bool, down: bool, persisted: bool)
      requires selectorMode
      modifies this`stats, this`statusMessage, this`selectedIndex, this`scrollOffset
      ensures |stats.games| == |old(stats.games)|
      ensures var games := old(stats.games);
        var sel := old(selectedIndex);
        && (selectedIndex, scrollOffset) == SelectStep(sel, old(scrollOffset), |games|, up, down)
        && stats == (if cross && sel < |games| then old(stats).(games := Flip(games, sel)) else old(stats))
        && statusMessage == (if cross && sel < |games| && persisted then ToggleMessage(Flip(games, sel)[sel]) else old(statusMessage))
      ensures old(Valid()) ==> Valid()
      ensures old(SelectionOnScreen()) ==> SelectionOnScreen()
    {
      if cross {
        CrossInput(persisted);
      }
      if up {
        SelectUp();
      }
      SelectStepSplit(old(selectedIndex), old(scrollOffset), |stats.games|, up, down);
      if down {
        SelectDown();
      }
    }

    /** Cross in selector mode: flip the selected game's flag and report it once written back. */
    method CrossInput(persisted: bool)
      requires selectorMode
      modifies this`stats, this`statusMessage
      ensures var games := old(stats.games);
        && stats == (if selectedIndex < |games| then old(stats).(games := Flip(games, selectedIndex)) else old(stats))
        && statusMessage == (if selectedIndex < |games| && persisted then ToggleMessage(Flip(games, selectedIndex)[selectedIndex]) else old(statusMessage))
      ensures old(Valid()) ==> Valid()
    {
      var toggled := ToggleSelectedHidden(persisted);
      if toggled {
        Report();
      }
    }

    /** The status line after a toggle: whether the selected game is now hidden or shown. */
    method Report()
      modifies this`statusMessage
      ensures SelectedGame().Some? && SelectedGame().value.hidden ==> statusMessage == "Hidden: " + SelectedGame().value.title
      ensures SelectedGame().Some? && !SelectedGame().value.hidden ==> statusMessage == "Shown: " + SelectedGame().value.title
      ensures SelectedGame().None? ==> statusMessage == old(statusMessage)
    {
      var game := SelectedGame();
      if game.Some? {
        statusMessage := ToggleMessage(game.value);
      }
    }
  }
}
