/** lib/line-settings.c: the settings that one line can be given. */
module LineSettings {
  import opened Wrappers

  datatype Direction = DirectionAsIs | Input | Output
  datatype Edge = EdgeNone | Rising | Falling | Both
  datatype Drive = PushPull | OpenDrain | OpenSource
  datatype Bias = BiasAsIs | BiasUnknown | BiasDisabled | PullUp | PullDown
  datatype Clock = Monotonic | Realtime | Hte
  datatype Value = Inactive | Active

  /** BiasUnknown is only ever reported, never requested. */
  type SettableBias = b: Bias | b != BiasUnknown witness BiasAsIs

  /** `unsigned long`, of 64 bits. */
  type ULong = n: nat | n < 0x1_0000_0000_0000_0000

  datatype Settings = Settings(
    direction: Direction,
    edge: Edge,
    drive: Drive,
    bias: SettableBias,
    activeLow: bool,
    clock: Clock,
    debounceUs: ULong,
    outputValue: Value)

  const DEFAULTS := Settings(DirectionAsIs, EdgeNone, PushPull, BiasAsIs, false, Monotonic, 0, Inactive)

  const OK := 0
  const ERROR := -1

  // The enumerators of include/gpiod.h; any other number is not a legal setting.

  function DirectionOf(code: int): Option<Direction> {
    if code == 1 then Some(DirectionAsIs)
    else if code == 2 then Some(Input)
    else if code == 3 then Some(Output)
    else None
  }

  function EdgeOf(code: int): Option<Edge> {
    if code == 1 then Some(EdgeNone)
    else if code == 2 then Some(Rising)
    else if code == 3 then Some(Falling)
    else if code == 4 then Some(Both)
    else None
  }

  function DriveOf(code: int): Option<Drive> {
    if code == 1 then Some(PushPull)
    else if code == 2 then Some(OpenDrain)
    else if code == 3 then Some(OpenSource)
    else None
  }

  /** Code 2 is "unknown", which cannot be requested. */
  function SettableBiasOf(code: int): Option<SettableBias> {
    if code == 1 then Some(BiasAsIs)
    else if code == 3 then Some(BiasDisabled)
    else if code == 4 then Some(PullUp)
    else if code == 5 then Some(PullDown)
    else None
  }

  function ClockOf(code: int): Option<Clock> {
    if code == 1 then Some(Monotonic)
    else if code == 2 then Some(Realtime)
    else if code == 3 then Some(Hte)
    else None
  }

  function ValueOf(code: int): Option<Value> {
    if code == 0 then Some(Inactive)
    else if code == 1 then Some(Active)
    else None
  }

  function ValueCode(v: Value): int {
    if v == Active then 1 else 0
  }

  function GetOr<T>(o: Option<T>, default: T): T {
    if o.Some? then o.value else default
  }

  function Status<T>(o: Option<T>): int {
    if o.Some? then OK else ERROR
  }

  /** The object behind `struct gpiod_line_settings`. */
  class LineSettings {
    var direction: Direction
    var edge: Edge
    var drive: Drive
    var bias: SettableBias
    var activeLow: bool
    var clock: Clock
    var debounceUs: ULong
    var outputValue: Value

    function Record(): Settings
      reads this
    {
      Settings(direction, edge, drive, bias, activeLow, clock, debounceUs, outputValue)
    }

    constructor ()
      ensures Record() == Settings(DirectionAsIs, EdgeNone, PushPull, BiasAsIs, false, Monotonic, 0, Inactive)
    {
      direction := DirectionAsIs;
      edge := EdgeNone;
      bias := BiasAsIs;
      drive := PushPull;
      activeLow := false;
      debounceUs := 0;
      clock := Monotonic;
      outputValue := Inactive;
    }

    constructor Copy(settings: Settings)
      ensures Record() == settings
    {
      direction := settings.direction;
      edge := settings.edge;
      drive := settings.drive;
      bias := settings.bias;
      activeLow := settings.activeLow;
      clock := settings.clock;
      debounceUs := settings.debounceUs;
      outputValue := settings.outputValue;
    }

    method Reset()
      modifies this
      ensures Record() == Settings(DirectionAsIs, EdgeNone, PushPull, BiasAsIs, false, Monotonic, 0, Inactive)
    {
      direction := DirectionAsIs;
      edge := EdgeNone;
      bias := BiasAsIs;
      drive := PushPull;
      activeLow := false;
      debounceUs := 0;
      clock := Monotonic;
      outputValue := Inactive;
    }

    method SetDirection(code: int) returns (ret: int)
      modifies this
      ensures ret == if code in {1, 2, 3} then 0 else -1
      ensures Record() == old(Record()).(direction :=
        if code == 2 then Input else if code == 3 then Output else DirectionAsIs)
    {
      var d := DirectionOf(code);
      direction := if d.Some? then d.value else DirectionAsIs;
      ret := Status(d);
    }

    method SetEdgeDetection(code: int) returns (ret: int)
      modifies this
      ensures ret == if code in {1, 2, 3, 4} then 0 else -1
      ensures Record() == old(Record()).(edge := 
        if code == 2 then Rising else if code == 3 then Falling else if code == 4 then Both else EdgeNone)
    {
      var e := EdgeOf(code);
      edge := if e.Some? then e.value else EdgeNone;
      ret := Status(e);
    }

    method SetBias(code: int) returns (ret: int)
      modifies this
      ensures ret == if code in {1, 3, 4, 5} then 0 else -1
      ensures Record() == old(Record()).(bias := 
        if code == 3 then BiasDisabled else if code == 4 then PullUp else if code == 5 then PullDown else BiasAsIs)
    {
      var b := SettableBiasOf(code);
      bias := if b.Some? then b.value else BiasAsIs;
      ret := Status(b);
    }

    method SetDrive(code: int) returns (ret: int)
      modifies this
      ensures ret == if code in {1, 2, 3} then 0 else -1
      ensures Record() == old(Record()).(drive :=
        if code == 2 then OpenDrain else if code == 3 then OpenSource else PushPull)
    {
      var d := DriveOf(code);
      drive := if d.Some? then d.value else PushPull;
      ret := Status(d);
    }

    method SetActiveLow(value: bool)
      modifies this
      ensures Record() == old(Record()).(activeLow := value)
    {
      activeLow := value;
    }

    method SetDebouncePeriodUs(period: ULong)
      modifies this
      ensures Record() == old(Record()).(debounceUs := period)
    {
      debounceUs := period;
    }

    method SetEventClock(code: int) returns (ret: int)
      modifies this
      ensures ret == if code in {1, 2, 3} then 0 else -1
      ensures Record() == old(Record()).(clock := if code == 2 then Realtime else if code == 3 then Hte else Monotonic)
    {
      var c := ClockOf(code);
      clock := if c.Some? then c.value else Monotonic;
      ret := Status(c);
    }

    method SetOutputValue(code: int) returns (ret: int)
      modifies this
      ensures ret == if code in {0, 1} then 0 else -1
      ensures Record() == old(Record()).(outputValue := if code == 1 then Active else Inactive)
    {
      var v := ValueOf(code);
      outputValue := if v.Some? then v.value else Inactive;
      ret := Status(v);
    }
  }
}
