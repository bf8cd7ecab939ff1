/**
 * The reply texts both firmwares write back over the serial line. The
 * ESP-IDF firmware (src/uart_cmd.c) and the Arduino firmware
 * (src/main_arduino.cpp) send the same strings, except that only the
 * Arduino one answers an identification request.
 */
module Replies {
  import opened Numerals

  const OK_ON: string := "OK ON\r\n"
  const OK_OFF: string := "OK OFF\r\n"
  const ERR_FREQ_RANGE: string := "ERR FREQ range 1..40000000\r\n"
  const ERR_FREQ: string := "ERR FREQ\r\n"
  const ERR_DUTY_RANGE: string := "ERR DUTY 0..100\r\n"
  const ERR_DUTY: string := "ERR DUTY\r\n"
  const ERR_UNKNOWN: string := "ERR unknown command (HELP)\r\n"

  /** FIRMWARE_ID "," FIRMWARE_VER CR LF. */
  const FIRMWARE_ID: string := "UART-GEN"
  const FIRMWARE_VER: string := "1.0"
  const ID_REPLY: string := FIRMWARE_ID + "," + FIRMWARE_VER + "\r\n"

  /** The greeting each firmware prints when it starts listening. */
  const ESP_BANNER: string := "\r\nUART Generator. Commands: FREQ, DUTY, ON, OFF, ?\r\n"
  const ARDUINO_BANNER: string := "\r\nUART Generator (Arduino). Commands: FREQ, DUTY, ON, OFF, VER?\r\n"

  /** The HELP texts, reduced to their command column. */
  const ESP_HELP: string := "FREQ <Hz>\r\nDUTY <0-100>\r\nON|START\r\nOFF|STOP\r\n?|STATUS\r\nHELP\r\n"
  const ARDUINO_HELP: string := "VER?|ID?\r\n" + ESP_HELP

  function OnOff(on: bool): string {
    if on then "ON" else "OFF"
  }

  /** "FREQ=%lu DUTY=%u %s\r\n". */
  function StatusReply(freq: nat, duty: nat, on: bool): string {
    "FREQ=" + Dec(freq) + " DUTY=" + Dec(duty) + " " + OnOff(on) + "\r\n"
  }

  /** "OK FREQ %lu\r\n" (Serial.print of the value on the Arduino). */
  function OkFreq(v: nat): string {
    "OK FREQ " + Dec(v) + "\r\n"
  }

  /** "OK DUTY %lu\r\n". */
  function OkDuty(v: nat): string {
    "OK DUTY " + Dec(v) + "\r\n"
  }

  /** The three answers to a FREQ command differ from each other, and so do the three to a DUTY command. */
  lemma SetterRepliesDiffer(v: nat)
    ensures OkFreq(v) != ERR_FREQ && OkFreq(v) != ERR_FREQ_RANGE && ERR_FREQ != ERR_FREQ_RANGE
    ensures OkDuty(v) != ERR_DUTY && OkDuty(v) != ERR_DUTY_RANGE && ERR_DUTY != ERR_DUTY_RANGE
  {
    assert OkFreq(v)[0] == 'O' && OkDuty(v)[0] == 'O';
    assert ERR_FREQ[0] == ERR_DUTY[0] == 'E';
    assert ERR_FREQ[8] != ERR_FREQ_RANGE[8] && ERR_DUTY[8] != ERR_DUTY_RANGE[8];
  }

  /**
   * The fixed-size snprintf buffers never truncate: a status reply for a
   * frequency up to 40000000 and a duty up to 100 fits the 80-byte buffer,
   * an OK FREQ or OK DUTY reply for such values the 32-byte one (each with
   * room for the NUL).
   */
  lemma RepliesFit(freq: nat, duty: nat, on: bool)
    requires freq <= 40_000_000 && duty <= 100
    ensures |StatusReply(freq, duty, on)| < 80
    ensures |OkFreq(freq)| < 32 && |OkDuty(duty)| < 32
  {
    DecLength(freq, 8);
    DecLength(duty, 3);
  }
}
