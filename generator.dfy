/**
 * The ESP-IDF signal generator (src/generator.c): four module statics
 * updated by guarded setters, and the LEDC channel duty that apply_output
 * writes. The LEDC driver's answers (ledc_timer_config,
 * ledc_channel_config, ledc_set_freq) are parameters: 0 is ESP_OK, any
 * other value an esp_err_t the generator hands back.
 */
module Generator {
  import opened Numerals
  import opened Pwm

  const ESP_OK: int := 0
  const DEFAULT_FREQ_HZ: U32 := 1000
  const DEFAULT_DUTY_PERCENT: U8 := 50
  const MIN_FREQ_HZ: U32 := 1
  const MAX_FREQ_HZ: U32 := 40_000_000

  /** The statics, plus the duty last written to the LEDC channel. */
  datatype GenState = GenState(initialized: bool, running: bool, freqHz: U32, dutyPercent: U8, ledcDuty: nat)

  /** The statics' initialisers; nothing has been written to the channel yet. */
  const INITIAL: GenState := GenState(false, false, DEFAULT_FREQ_HZ, DEFAULT_DUTY_PERCENT, 0)

  /** A state together with the int a generator_* call returns. */
  datatype Outcome = Outcome(state: GenState, rc: int)

  /**
   * What the generator keeps true: a legal frequency and duty, and a
   * channel that shows the duty (or 0 when stopped) once initialized and
   * has never been written before.
   */
  predicate Valid(g: GenState) {
    && MIN_FREQ_HZ <= g.freqHz <= MAX_FREQ_HZ
    && g.dutyPercent <= 100
    && g.ledcDuty == (if g.initialized && g.running then DutyToLedc(g.dutyPercent) else 0)
  }

  /** apply_output: nothing before init, 0 when stopped, the converted duty when running. */
  function Applied(g: GenState): (r: GenState)
    ensures r.(ledcDuty := g.ledcDuty) == g
    ensures !g.initialized ==> r == g
    ensures g.initialized ==> r.ledcDuty == if g.running then DutyToLedc(g.dutyPercent) else 0
  {
    if !g.initialized then g
    else if !g.running then g.(ledcDuty := 0)
    else g.(ledcDuty := DutyToLedc(g.dutyPercent))
  }

  /**
   * generator_init: once initialized it succeeds again without touching
   * anything. A first init succeeds exactly when both configuration calls
   * do, leaving 1000 Hz, 50 % and the output stopped (duty 0 on the
   * channel); otherwise it returns the first error and stays uninitialized.
   */
  function InitResult(g: GenState, timerErr: int, channelErr: int): (o: Outcome)
    ensures g.initialized ==> o == Outcome(g, ESP_OK)
    ensures !g.initialized ==> (o.rc == ESP_OK <==> timerErr == ESP_OK && channelErr == ESP_OK)
    ensures !g.initialized && o.rc == ESP_OK ==>
              o.state == GenState(true, false, DEFAULT_FREQ_HZ, DEFAULT_DUTY_PERCENT, 0)
    ensures o.rc != ESP_OK ==> o.state == g && o.rc == (if timerErr != ESP_OK then timerErr else channelErr)
  {
    if g.initialized then Outcome(g, ESP_OK)
    else if timerErr != ESP_OK then Outcome(g, timerErr)
    else if channelErr != ESP_OK then Outcome(g, channelErr)
    else Outcome(Applied(GenState(true, false, DEFAULT_FREQ_HZ, DEFAULT_DUTY_PERCENT, 0)), ESP_OK)
  }

  /**
   * generator_set_freq_hz, where setFreqErr is what ledc_set_freq answers:
   * -1 before init, -2 outside 1..40000000, the driver's error if it
   * refuses. The stored frequency changes only when 0 is returned, and then
   * nothing else changes.
   */
  function SetFreqResult(g: GenState, freqHz: U32, setFreqErr: int): (o: Outcome)
    ensures !g.initialized ==> o.rc == -1
    ensures g.initialized && (freqHz < MIN_FREQ_HZ || freqHz > MAX_FREQ_HZ) ==> o.rc == -2
    ensures o.rc == ESP_OK <==> g.initialized && MIN_FREQ_HZ <= freqHz <= MAX_FREQ_HZ && setFreqErr == ESP_OK
    ensures g.initialized && MIN_FREQ_HZ <= freqHz <= MAX_FREQ_HZ && setFreqErr != ESP_OK ==> o.rc == setFreqErr
    ensures o.rc == ESP_OK ==> o.state == g.(freqHz := freqHz)
    ensures o.rc != ESP_OK ==> o.state == g
  {
    if !g.initialized then Outcome(g, -1)
    else if freqHz < MIN_FREQ_HZ || freqHz > MAX_FREQ_HZ then Outcome(g, -2)
    else if setFreqErr != ESP_OK then Outcome(g, setFreqErr)
    else Outcome(g.(freqHz := freqHz), ESP_OK)
  }

  /**
   * generator_set_duty_percent: -1 before init, -2 above 100, otherwise the
   * duty is stored and, if the output runs, written to the channel.
   */
  function SetDutyResult(g: GenState, percent: U8): (o: Outcome)
    ensures !g.initialized ==> o.rc == -1
    ensures g.initialized && percent > 100 ==> o.rc == -2
    ensures o.rc == ESP_OK <==> g.initialized && percent <= 100
    ensures o.rc == ESP_OK ==> o.state.dutyPercent == percent && o.state.freqHz == g.freqHz && o.state.running == g.running
    ensures o.rc == ESP_OK ==> o.state.initialized == g.initialized
    ensures o.rc == ESP_OK ==> o.state.ledcDuty == if g.running then DutyToLedc(percent) else 0
    ensures o.rc != ESP_OK ==> o.state == g
  {
    if !g.initialized then Outcome(g, -1)
    else if percent > 100 then Outcome(g, -2)
    else Outcome(Applied(g.(dutyPercent := percent)), ESP_OK)
  }

  /** generator_start sets the flag even before init; the channel is written only once initialized. */
  function Started(g: GenState): (r: GenState)
    ensures r.running && r.initialized == g.initialized && r.freqHz == g.freqHz && r.dutyPercent == g.dutyPercent
    ensures r.ledcDuty == if g.initialized then DutyToLedc(g.dutyPercent) else g.ledcDuty
  {
    Applied(g.(running := true))
  }

  /** generator_stop, likewise. */
  function Stopped(g: GenState): (r: GenState)
    ensures !r.running && r.initialized == g.initialized && r.freqHz == g.freqHz && r.dutyPercent == g.dutyPercent
    ensures r.ledcDuty == if g.initialized then 0 else g.ledcDuty
  {
    Applied(g.(running := false))
  }

  /** The statics start out valid. */
  lemma InitialValid()
    ensures Valid(INITIAL)
  {
  }

  /** Every operation keeps the generator valid. */
  lemma ValidKept(g: GenState, timerErr: int, channelErr: int, freqHz: U32, setFreqErr: int, percent: U8)
    requires Valid(g)
    ensures Valid(InitResult(g, timerErr, channelErr).state)
    ensures Valid(SetFreqResult(g, freqHz, setFreqErr).state)
    ensures Valid(SetDutyResult(g, percent).state)
    ensures Valid(Started(g)) && Valid(Stopped(g))
  {
  }

  /** The module statics of generator.c, with the LEDC channel duty they drive. */
  class PwmGenerator {
    var initialized: bool
    var running: bool
    var freqHz: U32
    var dutyPercent: U8
    var ledcDuty: nat

    /** What ledc_set_freq answers for each frequency. */
    const setFreqStatus: U32 -> int

    function State(): GenState
      reads this
    {
      GenState(initialized, running, freqHz, dutyPercent, ledcDuty)
    }

    constructor (setFreqStatus: U32 -> int)
      ensures State() == INITIAL && this.setFreqStatus == setFreqStatus
    {
      initialized := false;
      running := false;
      freqHz := DEFAULT_FREQ_HZ;
      dutyPercent := DEFAULT_DUTY_PERCENT;
      ledcDuty := 0;
      this.setFreqStatus := setFreqStatus;
    }

    method ApplyOutput()
      modifies this
      ensures State() == Applied(old(State()))
    {
      if !initialized {
        return;
      }
      if !running {
        ledcDuty := 0;
        return;
      }
      var duty := dutyPercent * (LEDC_MAX_DUTY + 1) / 100;
      if duty > LEDC_MAX_DUTY {
        duty := LEDC_MAX_DUTY;
      }
      ledcDuty := duty;
    }

    /** timerErr and channelErr are what ledc_timer_config and ledc_channel_config answer. */
    method Init(timerErr: int, channelErr: int) returns (rc: int)
      modifies this
      ensures Outcome(State(), rc) == InitResult(old(State()), timerErr, channelErr)
    {
      if initialized {
        return ESP_OK;
      }
      if timerErr != ESP_OK {
        return timerErr;
      }
      if channelErr != ESP_OK {
        return channelErr;
      }
      ledcDuty := 0;
      initialized := true;
      freqHz := DEFAULT_FREQ_HZ;
      dutyPercent := DEFAULT_DUTY_PERCENT;
      running := false;
      ApplyOutput();
      return ESP_OK;
    }

    method SetFreqHz(freq: U32) returns (rc: int)
      modifies this
      ensures Outcome(State(), rc) == SetFreqResult(old(State()), freq, setFreqStatus(freq))
    {
      if !initialized {
        return -1;
      }
      if freq < MIN_FREQ_HZ || freq > MAX_FREQ_HZ {
        return -2;
      }
      var e := setFreqStatus(freq);
      if e != ESP_OK {
        return e;
      }
      freqHz := freq;
      return ESP_OK;
    }

    method SetDutyPercent(percent: U8) returns (rc: int)
      modifies this
      ensures Outcome(State(), rc) == SetDutyResult(old(State()), percent)
    {
      if !initialized {
        return -1;
      }
      if percent > 100 {
        return -2;
      }
      dutyPercent := percent;
      ApplyOutput();
      return ESP_OK;
    }

    method Start()
      modifies this
      ensures State() == Started(old(State()))
    {
      running := true;
      ApplyOutput();
    }

    method Stop()
      modifies this
      ensures State() == Stopped(old(State()))
    {
      running := false;
      ApplyOutput();
    }

    method IsRunning() returns (r: bool)
      ensures r == State().running
    {
      return running;
    }

    method GetFreqHz() returns (f: U32)
      ensures f == State().freqHz
    {
      return freqHz;
    }

    method GetDutyPercent() returns (p: U8)
      ensures p == State().dutyPercent
    {
      return dutyPercent;
    }
  }
}
