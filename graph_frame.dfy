/** The main window (GraphFrame) without its widgets: the two channel
    histories, the last averages shown in the Tempreture and Pressure text
    fields, the Gain, Channel and Rate text fields, the redraw tick and the
    Set button handler. */
module Plot {
  import opened Optional
  import opened History
  import opened Axis
  import opened Commands
  import Samples
  import opened Mailbox

  /** What a text field shows after an update that may not happen. */
  function Shown<T>(update: Option<T>, before: T): T {
    if update.Some? then update.value else before
  }

  class GraphFrame {
    const datagen: Samples.SensorData
    const slot: CommandSlot
    var temperatureHistory: seq<int>
    var pressureHistory: seq<int>
    var temperatureShown: int
    var pressureShown: int
    var gainText: string
    var channelText: string
    var rateText: string

    constructor (datagen: Samples.SensorData, slot: CommandSlot)
      ensures this.datagen == datagen && this.slot == slot
      ensures temperatureHistory == [] && pressureHistory == []
      ensures temperatureShown == 0 && pressureShown == 0
      ensures gainText == "0" && channelText == "1" && rateText == "0"
    {
      this.datagen := datagen;
      this.slot := slot;
      temperatureHistory, pressureHistory := [], [];
      temperatureShown, pressureShown := 0, 0;
      gainText, channelText, rateText := "0", "1", "0";
    }

    /** The temperature channel as a tick leaves it, when it started with
        this history, these drained samples and this average shown. */
    predicate TemperatureTicked(history: seq<int>, drained: seq<int>, shown: int)
      reads this`temperatureHistory, this`temperatureShown, datagen`temperature
    {
      && temperatureHistory == Tick(history, drained)
      && datagen.temperature == []
      && temperatureShown == Shown(TickAverage(history, drained), shown)
    }

    /** The pressure channel as a tick leaves it. */
    predicate PressureTicked(history: seq<int>, drained: seq<int>, shown: int)
      reads this`pressureHistory, this`pressureShown, datagen`pressure
    {
      && pressureHistory == Tick(history, drained)
      && datagen.pressure == []
      && pressureShown == Shown(TickAverage(history, drained), shown)
    }

    /** on_redraw_timer followed by the bound arithmetic of draw_plot: both
        histories take one tick, the block averages are shown when due, and
        the axis bounds of the new histories are returned. */
    method OnRedrawTimer() returns (temperatureBounds: Bounds, pressureBounds: Bounds)
      modifies this`temperatureHistory, this`temperatureShown, this`pressureHistory, this`pressureShown,
               datagen`temperature, datagen`pressure
      ensures TemperatureTicked(old(temperatureHistory), old(datagen.temperature), old(temperatureShown))
      ensures PressureTicked(old(pressureHistory), old(datagen.pressure), old(pressureShown))
      ensures temperatureBounds == AxisBounds(temperatureHistory)
      ensures pressureBounds == AxisBounds(pressureHistory)
      ensures unchanged(this`gainText, this`channelText, this`rateText)
    {
      TickTemperature();
      TickPressure();
      temperatureBounds, pressureBounds := DrawPlot();
    }

    /** The bound arithmetic of draw_plot for both channels, with the lower
        y bound taken over the values on display (see Axis.YLowerAsWritten
        for the one line 265 computes). */
    method DrawPlot() returns (temperatureBounds: Bounds, pressureBounds: Bounds)
      ensures temperatureBounds == AxisBounds(temperatureHistory)
      ensures pressureBounds == AxisBounds(pressureHistory)
    {
      temperatureBounds := AxisBounds(temperatureHistory);
      pressureBounds := AxisBounds(pressureHistory);
    }

    /** The temperature channel's part of the tick: clear when over the
        limit, drain and append, then average the block ending at the
        pre-tick length when that is a positive multiple of 72. */
    method TickTemperature()
      modifies this`temperatureHistory, this`temperatureShown, datagen`temperature
      ensures TemperatureTicked(old(temperatureHistory), old(datagen.temperature), old(temperatureShown))
      ensures unchanged(this`gainText, this`channelText, this`rateText)
    {
      ghost var before := temperatureHistory;
      var data0Len := |temperatureHistory|;
      if data0Len > HistoryLimit {
        temperatureHistory := [];
      }
      var temperatures := datagen.NextTemperature();
      temperatureHistory := temperatureHistory + temperatures;
      assert temperatureHistory == Tick(before, temperatures);
      if data0Len % BlockLength == 0 && data0Len > 0 {
        temperatureShown := Stats.Sum(Slice(temperatureHistory, data0Len - BlockLength, data0Len)) / BlockLength;
      }
    }

    /** The pressure channel's part of the tick, as for temperature. */
    method TickPressure()
      modifies this`pressureHistory, this`pressureShown, datagen`pressure
      ensures PressureTicked(old(pressureHistory), old(datagen.pressure), old(pressureShown))
      ensures unchanged(this`gainText, this`channelText, this`rateText)
    {
      ghost var before := pressureHistory;
      var data1Len := |pressureHistory|;
      if data1Len > HistoryLimit {
        pressureHistory := [];
      }
      var pressures := datagen.NextPressure();
      pressureHistory := pressureHistory + pressures;
      assert pressureHistory == Tick(before, pressures);
      if data1Len % BlockLength == 0 && data1Len > 0 {
        pressureShown := Stats.Sum(Slice(pressureHistory, data1Len - BlockLength, data1Len)) / BlockLength;
      }
    }

    /** OnClickSetPara, once its wait for an empty slot is over: each
        parameter is read with atoi and written back clamped; a text atoi
        rejects stops the handler there; with all three accepted the
        command is stored in the slot. */
    method OnClickSetPara() returns (posted: bool)
      requires slot.pending == None
      modifies this, slot
      ensures posted <==> Command(old(gainText), old(channelText), old(rateText)).Some?
      ensures slot.pending == Command(old(gainText), old(channelText), old(rateText))
      ensures gainText == Shown(Clamp(old(gainText), GainMax), old(gainText))
      ensures channelText == if Atoi(old(gainText)).None? then old(channelText)
                             else Shown(Clamp(old(channelText), ChannelMax), old(channelText))
      ensures rateText == if Atoi(old(gainText)).None? || Atoi(old(channelText)).None? then old(rateText)
                          else Shown(Clamp(old(rateText), RateMax), old(rateText))
      ensures temperatureHistory == old(temperatureHistory) && pressureHistory == old(pressureHistory)
      ensures temperatureShown == old(temperatureShown) && pressureShown == old(pressureShown)
    {
      var gain := Clamp(gainText, GainMax);
      if gain.None? {
        return false;
      }
      gainText := gain.value;
      var channel := Clamp(channelText, ChannelMax);
      if channel.None? {
        return false;
      }
      channelText := channel.value;
      var rate := Clamp(rateText, RateMax);
      if rate.None? {
        return false;
      }
      rateText := rate.value;
      slot.pending := Some("FC" + gain.value + channel.value + rate.value);
      return true;
    }
  }
}
