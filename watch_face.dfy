/**
 * The watch face's settings and what they switch on the screen.
 *
 * Three settings arrive from the phone as (key, byte) pairs: whether the second
 * hand runs, which background is drawn, and whether the info panel is shown.
 * Each is kept in memory, written to persistent storage and mirrored on the
 * display: the tick unit and the second-hand layers, the background bitmap,
 * and the info panel layer.
 */
module WatchFace {
  import opened CInt
  import opened HandGeometry
  import opened InfoText

  /** Message and storage keys of the three settings. */
  const SettingSeconds: int := 1
  const SettingBackground: int := 2
  const SettingInfo: int := 3

  /** The value of each setting that switches its feature on. */
  const SecondsOn: int := 0
  const BackgroundSimple: int := 1
  const InfoOn: int := 0

  predicate IsSettingKey(key: int) {
    key == SettingSeconds || key == SettingBackground || key == SettingInfo
  }

  /** The tick-timer subscription: none yet, every second or every minute. */
  datatype TimeUnit = Unsubscribed | SecondUnit | MinuteUnit

  /** What the Bluetooth and battery services report when the panel is redrawn. */
  datatype Peek = Peek(linked: bool, plugged: bool, level: uint8)

  datatype InfoTexts = InfoTexts(bluetooth: string, battery: string)

  function InfoFor(p: Peek): InfoTexts {
    InfoTexts(BluetoothText(p.linked), BatteryText(p.plugged, p.level))
  }

  // ---------------------------------------------------------------------
  // The settings as values
  // ---------------------------------------------------------------------

  /** The three settings and the persistent key/value store. */
  datatype Settings = Settings(seconds: int, background: int, info: int, store: map<int, int>)

  /** The parts of the display the settings decide. */
  datatype Display = Display(tickUnit: TimeUnit, secondHandsShown: bool, infoShown: bool, backgroundSimple: bool)

  function DisplayFor(s: Settings): Display {
    Display(
      if s.seconds == SecondsOn then SecondUnit else MinuteUnit,
      s.seconds == SecondsOn,
      s.info == InfoOn,
      s.background == BackgroundSimple)
  }

  function SettingOf(s: Settings, key: int): int
    requires IsSettingKey(key)
  {
    if key == SettingSeconds then s.seconds
    else if key == SettingBackground then s.background
    else s.info
  }

  /** Every setting that has been stored holds its current value. */
  predicate Persisted(s: Settings) {
    (SettingSeconds in s.store ==> s.store[SettingSeconds] == s.seconds)
    && (SettingBackground in s.store ==> s.store[SettingBackground] == s.background)
    && (SettingInfo in s.store ==> s.store[SettingInfo] == s.info)
  }

  /** One settings message: a setting key takes the value and is stored; any other key is ignored. */
  function Apply(s: Settings, key: uint32, value: uint8): Settings {
    if key == SettingSeconds then s.(seconds := value, store := s.store[key := value])
    else if key == SettingBackground then s.(background := value, store := s.store[key := value])
    else if key == SettingInfo then s.(info := value, store := s.store[key := value])
    else s
  }

  datatype Change = Change(key: uint32, value: uint8)

  /** A series of settings messages, handled in order. */
  function ApplyAll(s: Settings, cs: seq<Change>): Settings
    decreases |cs|
  {
    if cs == [] then s
    else Apply(ApplyAll(s, cs[..|cs| - 1]), cs[|cs| - 1].key, cs[|cs| - 1].value)
  }

  /**
   * A message for a setting key makes that setting and its stored entry equal to the
   * value, leaves the other settings and stored entries alone, and keeps the store
   * in step with the settings.
   */
  lemma ApplySetting(s: Settings, key: uint32, value: uint8)
    requires IsSettingKey(key)
    ensures SettingOf(Apply(s, key, value), key) == value
    ensures key in Apply(s, key, value).store && Apply(s, key, value).store[key] == value
    ensures forall k :: IsSettingKey(k) && k != key ==> SettingOf(Apply(s, key, value), k) == SettingOf(s, k)
    ensures forall k :: k != key ==> (k in Apply(s, key, value).store <==> k in s.store)
    ensures forall k :: k != key && k in s.store ==> Apply(s, key, value).store[k] == s.store[k]
    ensures Persisted(s) ==> Persisted(Apply(s, key, value))
  {
  }

  /**
   * What a message switches on the display: the seconds key sets the tick unit and the
   * second hand (on for 0), the background key the background (simple for 1), the
   * info key the info panel (on for 0); nothing else changes.
   */
  lemma ApplyDisplay(s: Settings, key: uint32, value: uint8)
    ensures key == SettingSeconds ==> DisplayFor(Apply(s, key, value)) == DisplayFor(s).(
      tickUnit := if value == SecondsOn then SecondUnit else MinuteUnit,
      secondHandsShown := value == SecondsOn)
    ensures key == SettingBackground ==>
      DisplayFor(Apply(s, key, value)) == DisplayFor(s).(backgroundSimple := value == BackgroundSimple)
    ensures key == SettingInfo ==>
      DisplayFor(Apply(s, key, value)) == DisplayFor(s).(infoShown := value == InfoOn)
    ensures !IsSettingKey(key) ==> DisplayFor(Apply(s, key, value)) == DisplayFor(s)
  {
  }

  /** A message for any other key changes nothing. */
  lemma ApplyOtherKey(s: Settings, key: uint32, value: uint8)
    requires !IsSettingKey(key)
    ensures Apply(s, key, value) == s
  {
  }

  /** Messages for different keys can be handled in either order. */
  lemma ApplyCommutes(s: Settings, c: Change, d: Change)
    requires c.key != d.key
    ensures Apply(Apply(s, c.key, c.value), d.key, d.value) == Apply(Apply(s, d.key, d.value), c.key, c.value)
  {
    if IsSettingKey(c.key) && IsSettingKey(d.key) {
      assert s.store[c.key := c.value][d.key := d.value] == s.store[d.key := d.value][c.key := c.value];
    }
  }

  /** A second message for the same key overrides the first. */
  lemma ApplyOverrides(s: Settings, key: uint32, v1: uint8, v2: uint8)
    ensures Apply(Apply(s, key, v1), key, v2) == Apply(s, key, v2)
  {
    if IsSettingKey(key) {
      assert s.store[key := v1][key := v2] == s.store[key := v2];
    }
  }

  /** Handling messages never puts the store out of step with the settings. */
  lemma {:induction false} ApplyAllPersisted(s: Settings, cs: seq<Change>)
    requires Persisted(s)
    ensures Persisted(ApplyAll(s, cs))
    decreases |cs|
  {
    if cs != [] {
      var last := cs[|cs| - 1];
      ApplyAllPersisted(s, cs[..|cs| - 1]);
      if IsSettingKey(last.key) {
        ApplySetting(ApplyAll(s, cs[..|cs| - 1]), last.key, last.value);
      }
    }
  }

  /** After a series of messages, a setting and its stored entry hold the value of the last message for its key. */
  lemma {:induction false} LastWriteWins(s: Settings, cs: seq<Change>, i: int)
    requires 0 <= i < |cs| && IsSettingKey(cs[i].key)
    requires forall j :: i < j < |cs| ==> cs[j].key != cs[i].key
    ensures SettingOf(ApplyAll(s, cs), cs[i].key) == cs[i].value
    ensures cs[i].key in ApplyAll(s, cs).store && ApplyAll(s, cs).store[cs[i].key] == cs[i].value
    decreases |cs|
  {
    var k := cs[i].key;
    var last := cs[|cs| - 1];
    var prefix := cs[..|cs| - 1];
    if i == |cs| - 1 {
      ApplySetting(ApplyAll(s, prefix), k, cs[i].value);
    } else {
      assert prefix[i] == cs[i];
      LastWriteWins(s, prefix, i);
      assert last.key != k;
      if IsSettingKey(last.key) {
        ApplySetting(ApplyAll(s, prefix), last.key, last.value);
      } else {
        ApplyOtherKey(ApplyAll(s, prefix), last.key, last.value);
      }
    }
  }

  /** A setting no message names keeps its value and its stored entry. */
  lemma {:induction false} UntouchedSetting(s: Settings, cs: seq<Change>, k: int)
    requires IsSettingKey(k)
    requires forall j :: 0 <= j < |cs| ==> cs[j].key != k
    ensures SettingOf(ApplyAll(s, cs), k) == SettingOf(s, k)
    ensures k in ApplyAll(s, cs).store <==> k in s.store
    ensures k in s.store ==> ApplyAll(s, cs).store[k] == s.store[k]
    decreases |cs|
  {
    if cs != [] {
      var last := cs[|cs| - 1];
      var prefix := cs[..|cs| - 1];
      assert forall j :: 0 <= j < |prefix| ==> prefix[j] == cs[j];
      UntouchedSetting(s, prefix, k);
      assert last.key != k;
      if IsSettingKey(last.key) {
        ApplySetting(ApplyAll(s, prefix), last.key, last.value);
      } else {
        ApplyOtherKey(ApplyAll(s, prefix), last.key, last.value);
      }
    }
  }

  // ---------------------------------------------------------------------
  // The running watch face
  // ---------------------------------------------------------------------

  class Face {
    // the settings and the persistent store
    var seconds: int
    var background: int
    var info: int
    var store: map<int, int>
    // the display they control
    var tickUnit: TimeUnit
    var secondHandsShown: bool
    var infoShown: bool
    var backgroundSimple: bool
    // the hand layers and the info panel's texts
    var hands: Hands
    var texts: InfoTexts

    function SettingsOf(): Settings
      reads this`seconds, this`background, this`info, this`store
    {
      Settings(seconds, background, info, store)
    }

    function DisplayOf(): Display
      reads this`tickUnit, this`secondHandsShown, this`infoShown, this`backgroundSimple
    {
      Display(tickUnit, secondHandsShown, infoShown, backgroundSimple)
    }

    /** Each hand's two layers share one centred frame, and every angle is in range. */
    ghost predicate HandsValid()
      reads this`hands
    {
      Centred(hands) && AnglesInRange(hands)
    }

    /** The store agrees with the settings and the display mirrors them. */
    ghost predicate Valid()
      reads this
    {
      HandsValid() && Persisted(SettingsOf()) && DisplayOf() == DisplayFor(SettingsOf())
    }

    /**
     * Start-up with the settings read from storage: pick the background, attach or
     * detach the info panel, then start the second hand or the minute tick.
     * `layers` are the freshly created hand layers.
     */
    constructor Init(seconds0: int, background0: int, info0: int, store0: map<int, int>,
                     layers: Hands, now: Tm, peek: Peek)
      requires Persisted(Settings(seconds0, background0, info0, store0))
      requires ValidTm(now)
      ensures Valid()
      ensures SettingsOf() == Settings(seconds0, background0, info0, store0)
      ensures hands == Placed(layers, now)
      ensures texts == if info0 == InfoOn then InfoFor(peek) else InfoTexts("", "")
    {
      seconds, background, info, store := seconds0, background0, info0, store0;
      backgroundSimple := background0 == BackgroundSimple;
      infoShown := false;
      texts := InfoTexts("", "");
      hands := layers;
      secondHandsShown := false;
      tickUnit := Unsubscribed;
      new;
      FollowInfoSetting();
      FollowSecondsSetting(now, peek);
    }

    /**
     * Redraw for time `t`: turn and centre the hands and, while the info setting is on,
     * refresh the Bluetooth and battery texts.
     */
    method UpdateTime(t: Tm, peek: Peek)
      requires ValidTm(t)
      modifies this`hands, this`texts
      ensures HandsValid()
      ensures hands == Placed(old(hands), t)
      ensures texts == if info == InfoOn then InfoFor(peek) else old(texts)
    {
      var hourAngle := HourAngle(t.hour, t.min);
      var hourFrame := CenterFrame(hands.whiteHour.frame);
      hands := hands.(whiteHour := RotLayer(hourAngle, hourFrame));
      hands := hands.(blackHour := RotLayer(hourAngle, hourFrame));

      var minuteAngle := MinuteAngle(t.min);
      var minuteFrame := CenterFrame(hands.whiteMinute.frame);
      hands := hands.(whiteMinute := RotLayer(minuteAngle, minuteFrame));
      hands := hands.(blackMinute := RotLayer(minuteAngle, minuteFrame));

      var secondAngle := SecondAngle(t.sec);
      var secondFrame := CenterFrame(hands.whiteSecond.frame);
      hands := hands.(whiteSecond := RotLayer(secondAngle, secondFrame));
      hands := hands.(blackSecond := RotLayer(secondAngle, secondFrame));
      PlacedCentred(old(hands), t);
      ShownAnglesInRange(hands, t);

      if info == InfoOn {
        var bluetooth := BluetoothText(peek.linked);
        var battery := BatteryText(peek.plugged, peek.level);
        texts := InfoTexts(bluetooth, battery);
      }
    }

    /** The tick handler redraws for the tick's time. */
    method HandleTick(t: Tm, peek: Peek)
      requires ValidTm(t)
      modifies this`hands, this`texts
      ensures HandsValid()
      ensures hands == Placed(old(hands), t)
      ensures texts == if info == InfoOn then InfoFor(peek) else old(texts)
    {
      UpdateTime(t, peek);
    }

    /** Attach the second-hand layers, redraw, and tick every second. */
    method EnableSeconds(now: Tm, peek: Peek)
      requires ValidTm(now)
      modifies this`secondHandsShown, this`tickUnit, this`hands, this`texts
      ensures secondHandsShown && tickUnit == SecondUnit
      ensures HandsValid()
      ensures hands == Placed(old(hands), now)
      ensures texts == if info == InfoOn then InfoFor(peek) else old(texts)
    {
      secondHandsShown := true;
      UpdateTime(now, peek);
      tickUnit := SecondUnit;
    }

    /** Detach the second-hand layers, redraw, and tick every minute. */
    method DisableSeconds(now: Tm, peek: Peek)
      requires ValidTm(now)
      modifies this`secondHandsShown, this`tickUnit, this`hands, this`texts
      ensures !secondHandsShown && tickUnit == MinuteUnit
      ensures HandsValid()
      ensures hands == Placed(old(hands), now)
      ensures texts == if info == InfoOn then InfoFor(peek) else old(texts)
    {
      secondHandsShown := false;
      UpdateTime(now, peek);
      tickUnit := MinuteUnit;
    }

    /** Start or stop the second hand as the seconds setting says. */
    method FollowSecondsSetting(now: Tm, peek: Peek)
      requires ValidTm(now)
      modifies this`secondHandsShown, this`tickUnit, this`hands, this`texts
      ensures secondHandsShown == (seconds == SecondsOn)
      ensures tickUnit == if seconds == SecondsOn then SecondUnit else MinuteUnit
      ensures HandsValid()
      ensures hands == Placed(old(hands), now)
      ensures texts == if info == InfoOn then InfoFor(peek) else old(texts)
    {
      if seconds == SecondsOn {
        EnableSeconds(now, peek);
      } else {
        DisableSeconds(now, peek);
      }
    }

    /** Attach the info panel. */
    method EnableInfo()
      modifies this`infoShown
      ensures infoShown
    {
      infoShown := true;
    }

    /** Detach the info panel. */
    method DisableInfo()
      modifies this`infoShown
      ensures !infoShown
    {
      infoShown := false;
    }

    /** Attach or detach the info panel as the info setting says. */
    method FollowInfoSetting()
      modifies this`infoShown
      ensures infoShown == (info == InfoOn)
    {
      if info == InfoOn {
        EnableInfo();
      } else {
        DisableInfo();
      }
    }

    /**
     * A settings message: a setting key stores the value in its setting and in the
     * persistent store and switches its part of the display; any other key changes
     * nothing. Only the seconds setting redraws.
     */
    method OnTupleChanged(key: uint32, value: uint8, now: Tm, peek: Peek)
      requires Valid() && ValidTm(now)
      modifies this
      ensures Valid()
      ensures SettingsOf() == Apply(old(SettingsOf()), key, value)
      ensures key == SettingSeconds ==> hands == Placed(old(hands), now)
      ensures key == SettingSeconds ==> texts == if info == InfoOn then InfoFor(peek) else old(texts)
      ensures key != SettingSeconds ==> hands == old(hands) && texts == old(texts)
      ensures !IsSettingKey(key) ==> unchanged(this)
    {
      if key == SettingSeconds {
        seconds := value;
        store := store[SettingSeconds := seconds];
        FollowSecondsSetting(now, peek);
      } else if key == SettingBackground {
        background := value;
        store := store[SettingBackground := background];
        backgroundSimple := background == BackgroundSimple;
      } else if key == SettingInfo {
        info := value;
        store := store[SettingInfo := info];
        FollowInfoSetting();
      }
    }
  }
}
