/**
 * The options menu's key handling (modules/game_options.py,
 * `show_options_menu`) and the statistics update (`update_game_stats`). The
 * settings are the `GAME_SETTINGS` dictionary, the option list its keys in
 * order, and the events the sequence `pygame.event.get()` delivers.
 */
module GameOptions {

  /** A value of `GAME_SETTINGS`: a boolean, an integer, or anything else
      (which the menu shows but never changes). */
  datatype Value = BoolValue(b: bool) | IntValue(i: int) | OtherValue

  type Settings = map<string, Value>

  datatype Key = Up | Down | Left | Right | Return | Escape | OtherKey

  datatype Event = Quit | KeyDown(key: Key) | OtherEvent

  /** The menu while open (the settings being edited and the highlighted
      option), or how it was closed: saved with the edited settings, or left
      (`None`) by closing the window or pressing Escape. */
  datatype Menu = Open(settings: Settings, selected: int) | Saved(settings: Settings) | Cancelled

  /** The closed range each integer option is kept in. */
  function Range(option: string): (r: (int, int))
    ensures r.0 <= r.1
    ensures option == "WINNING_POINTS" || option == "BALL_SPEED_TURNS" ==> r == (1, 10)
    ensures option == "BALL_INCREMENT" ==> r == (1, 20)
    ensures option != "WINNING_POINTS" && option != "BALL_SPEED_TURNS" && option != "BALL_INCREMENT" ==>
      r == (0, 100)
  {
    if option in ["WINNING_POINTS", "BALL_SPEED_TURNS"] then (1, 10)
    else if option == "BALL_INCREMENT" then (1, 20)
    else (0, 100)
  }

  /** `max(lo, min(hi, v))`. */
  function ClampTo(lo: int, hi: int, v: int): (c: int)
    requires lo <= hi
    ensures lo <= c <= hi
    ensures lo <= v <= hi ==> c == v
    ensures v < lo ==> c == lo
    ensures hi < v ==> c == hi
  {
    if hi < v then hi else if v < lo then lo else v
  }

  /** The value after LEFT (`right` false) or RIGHT: a boolean is flipped
      whichever arrow it is, an integer moves by one and is clamped to its
      range, any other value stays. */
  function Adjusted(option: string, value: Value, right: bool): (v: Value)
    ensures value.BoolValue? ==> v == BoolValue(!value.b)
    ensures value.IntValue? ==> v.IntValue? && Range(option).0 <= v.i <= Range(option).1
    ensures value.IntValue? ==>
      v == IntValue(ClampTo(Range(option).0, Range(option).1, value.i + (if right then 1 else -1)))
    ensures value.OtherValue? ==> v == value
  {
    match value
    case BoolValue(b) => BoolValue(!b)
    case IntValue(i) =>
      var change := if right then 1 else -1;
      var (lo, hi) := Range(option);
      IntValue(ClampTo(lo, hi, i + change))
    case OtherValue => OtherValue
  }

  /** `(selected - 1) % len(options)`. */
  function SelectPrevious(selected: int, n: int): (s: int)
    requires 0 < n
    ensures 0 <= s < n
    ensures 0 < selected < n ==> s == selected - 1
    ensures selected == 0 ==> s == n - 1
  {
    (selected - 1) % n
  }

  /** `(selected + 1) % len(options)`. */
  function SelectNext(selected: int, n: int): (s: int)
    requires 0 < n
    ensures 0 <= s < n
    ensures 0 <= selected < n - 1 ==> s == selected + 1
    ensures selected == n - 1 ==> s == 0
  {
    (selected + 1) % n
  }

  /** The option list is non-empty and names entries of the settings, and
      the highlighted option is one of them. */
  predicate WellFormed(settings: Settings, options: seq<string>, selected: int)
  {
    0 < |options| && 0 <= selected < |options| &&
    forall o | o in options :: o in settings
  }

  /** One event of the loop. */
  function Step(settings: Settings, selected: int, options: seq<string>, ev: Event): (m: Menu)
    requires WellFormed(settings, options, selected)
    ensures m.Open? ==> WellFormed(m.settings, options, m.selected) && m.settings.Keys == settings.Keys
    ensures ev.Quit? || ev == KeyDown(Escape) <==> m.Cancelled?
    ensures ev == KeyDown(Return) <==> m == Saved(settings)
    ensures ev == KeyDown(Up) ==> m == Open(settings, SelectPrevious(selected, |options|))
    ensures ev == KeyDown(Down) ==> m == Open(settings, SelectNext(selected, |options|))
    ensures ev == OtherEvent || ev == KeyDown(OtherKey) ==> m == Open(settings, selected)
    ensures ev == KeyDown(Left) || ev == KeyDown(Right) ==>
      m.Open? && m.selected == selected &&
      m.settings[options[selected]] == Adjusted(options[selected], settings[options[selected]], ev == KeyDown(Right))
    ensures m.Open? ==> forall o | o in settings &&
      (o != options[selected] || !(ev == KeyDown(Left) || ev == KeyDown(Right))) :: m.settings[o] == settings[o]
  {
    match ev
    case Quit => Cancelled
    case OtherEvent => Open(settings, selected)
    case KeyDown(key) =>
      match key
      case Up => Open(settings, SelectPrevious(selected, |options|))
      case Down => Open(settings, SelectNext(selected, |options|))
      case Left =>
        var option := options[selected];
        Open(settings[option := Adjusted(option, settings[option], false)], selected)
      case Right =>
        var option := options[selected];
        Open(settings[option := Adjusted(option, settings[option], true)], selected)
      case Return => Saved(settings)
      case Escape => Cancelled
      case OtherKey => Open(settings, selected)
  }

  /** The menu after the given events: it stops at the first event that
      closes it and otherwise stays open, waiting for more. */
  function Session(m: Menu, options: seq<string>, events: seq<Event>): (r: Menu)
    requires m.Open? ==> WellFormed(m.settings, options, m.selected)
    decreases |events|
  {
    if !m.Open? || events == [] then m
    else Session(Step(m.settings, m.selected, options, events[0]), options, events[1..])
  }

  /** `show_options_menu`: starts on the first option and handles the events
      in order until one of them closes the menu. */
  method ShowOptionsMenu(initial: Settings, options: seq<string>, events: seq<Event>) returns (outcome: Menu)
    requires WellFormed(initial, options, 0)
    ensures outcome == Session(Open(initial, 0), options, events)
  {
    var settings, selected := initial, 0;
    var i := 0;
    while i < |events|
      invariant 0 <= i <= |events|
      invariant WellFormed(settings, options, selected)
      invariant Session(Open(initial, 0), options, events) == Session(Open(settings, selected), options, events[i..])
    {
      assert events[i..][0] == events[i] && events[i..][1..] == events[i + 1..];
      var ev := events[i];
      if ev.Quit? {
        return Cancelled;
      }
      if ev.KeyDown? {
        match ev.key
        case Up =>
          selected := (selected - 1) % |options|;
        case Down =>
          selected := (selected + 1) % |options|;
        case Left =>
          var option := options[selected];
          settings := settings[option := Adjusted(option, settings[option], false)];
        case Right =>
          var option := options[selected];
          settings := settings[option := Adjusted(option, settings[option], true)];
        case Return =>
          return Saved(settings);
        case Escape =>
          return Cancelled;
        case OtherKey =>
      }
      i := i + 1;
    }
    assert events[i..] == [];
    outcome := Open(settings, selected);
  }

  /** Every integer option named in the list lies in its range. */
  predicate InRanges(settings: Settings, options: seq<string>)
  {
    forall o | o in options && o in settings && settings[o].IntValue? ::
      Range(o).0 <= settings[o].i <= Range(o).1
  }

  /** Editing never brings an integer option out of its range, and never
      adds or removes an entry. */
  lemma {:induction false} SessionKeepsRanges(m: Menu, options: seq<string>, events: seq<Event>)
    requires m.Open? && WellFormed(m.settings, options, m.selected) && InRanges(m.settings, options)
    ensures var r := Session(m, options, events);
      !r.Cancelled? ==> InRanges(r.settings, options) && r.settings.Keys == m.settings.Keys
    ensures Session(m, options, events).Open? ==>
      WellFormed(Session(m, options, events).settings, options, Session(m, options, events).selected)
    decreases |events|
  {
    if events != [] {
      var next := Step(m.settings, m.selected, options, events[0]);
      if next.Open? {
        StepKeepsRanges(m.settings, m.selected, options, events[0]);
        SessionKeepsRanges(next, options, events[1..]);
      }
    }
  }

  lemma StepKeepsRanges(settings: Settings, selected: int, options: seq<string>, ev: Event)
    requires WellFormed(settings, options, selected) && InRanges(settings, options)
    ensures var m := Step(settings, selected, options, ev);
      m.Open? ==> InRanges(m.settings, options)
  {
  }

  /** UP undoes DOWN and DOWN undoes UP. */
  lemma SelectionRoundTrip(selected: int, n: int)
    requires 0 <= selected < n
    ensures SelectPrevious(SelectNext(selected, n), n) == selected
    ensures SelectNext(SelectPrevious(selected, n), n) == selected
  {
  }

  /** Flipping a boolean option twice restores it, whichever arrows are
      pressed. */
  lemma ToggleTwice(option: string, b: bool, first: bool, second: bool)
    ensures Adjusted(option, Adjusted(option, BoolValue(b), first), second) == BoolValue(b)
  {
  }

  /** Pressing toward a bound that is already reached changes nothing. */
  lemma ClampIdempotentAtBound(option: string)
    ensures Adjusted(option, IntValue(Range(option).1), true) == IntValue(Range(option).1)
    ensures Adjusted(option, IntValue(Range(option).0), false) == IntValue(Range(option).0)
  {
  }

  /** Inside the range, LEFT undoes RIGHT and RIGHT undoes LEFT. */
  lemma ArrowsInverse(option: string, v: int)
    ensures Range(option).0 <= v < Range(option).1 ==>
      Adjusted(option, Adjusted(option, IntValue(v), true), false) == IntValue(v)
    ensures Range(option).0 < v <= Range(option).1 ==>
      Adjusted(option, Adjusted(option, IntValue(v), false), true) == IntValue(v)
  {
  }

  /** `settings["GAME_STATS"].get(stat_name, 0)`. */
  function StatOf(stats: map<string, int>, name: string): int
  {
    if name in stats then stats[name] else 0
  }

  /** `update_game_stats`: the stored statistic is replaced, and the file
      written (`saved`), only by a strictly larger value; a missing one counts
      as zero. */
  function UpdateGameStats(stats: map<string, int>, name: string, value: int): (r: (map<string, int>, bool))
    ensures r.1 <==> value > StatOf(stats, name)
    ensures StatOf(r.0, name) == if value > StatOf(stats, name) then value else StatOf(stats, name)
    ensures forall k | k != name :: (k in r.0 <==> k in stats) && (k in stats ==> r.0[k] == stats[k])
    ensures !r.1 ==> r.0 == stats
  {
    if value > StatOf(stats, name) then (stats[name := value], true) else (stats, false)
  }

  /** A statistic never decreases, and a second update with the same value
      writes nothing. */
  lemma UpdateGameStatsMonotone(stats: map<string, int>, name: string, value: int)
    ensures StatOf(stats, name) <= StatOf(UpdateGameStats(stats, name, value).0, name)
    ensures value <= StatOf(UpdateGameStats(stats, name, value).0, name)
    ensures var again := UpdateGameStats(UpdateGameStats(stats, name, value).0, name, value);
      !again.1 && again.0 == UpdateGameStats(stats, name, value).0
  {
  }
}
