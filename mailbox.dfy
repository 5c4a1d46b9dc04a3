/**
 * The emulated BCM2835 mailbox peripheral (utils/mailbox.py): two registers driven by
 * double-word reads and writes at fixed offsets, and the property-buffer walk started
 * by a write on channel 8.
 */
module Mailbox {
  import opened Wrappers
  import opened PropertyBuffer

  /** Register offsets. */
  const ReadOffset: nat := 0x00
  const PeekOffset: nat := 0x10
  const SenderOffset: nat := 0x14
  const StatusOffset: nat := 0x18
  const ConfigOffset: nat := 0x1C
  const WriteOffset: nat := 0x20

  /** Status after a read (mailbox empty) and after a write. */
  const StatusEmpty: Word := 0x4000_0000
  const StatusFull: Word := 0x0

  const PropertyChannel: nat := 8
  const InitialTemperature: real := 25.0

  /** The channel of a written value, `value & 0xF`: its low four bits. */
  function Channel(value: Word): (c: nat)
    ensures c < 16
  {
    value % 16
  }

  /**
   * The buffer address of a written value, `value >> 4`: the value without its
   * channel bits, shifted down. (The firmware's convention clears the four bits
   * instead; the shift is what the emulator does.)
   */
  function BufferAddress(value: Word): (a: nat)
    ensures a < 0x1000_0000
  {
    value / 16
  }

  /** A written value splits into its buffer address and its channel without loss. */
  lemma MailboxValueSplits(value: Word)
    ensures BufferAddress(value) * 16 + Channel(value) == value
    ensures forall addr: nat, ch: nat {:trigger addr * 16 + ch} ::
              ch < 16 && addr * 16 + ch == value ==> addr == BufferAddress(value) && ch == Channel(value)
  {
  }

  /** A temperature whose milli-degree value fits in a bus word. */
  predicate TemperatureFitsWord(t: real) {
    0.0 <= t && t * 1000.0 < WordLimit as real
  }

  /** The machine's system bus, reduced to its 32-bit words. */
  class SystemBus {
    var words: Memory

    constructor (words: Memory)
      ensures this.words == words
    {
      this.words := words;
    }

    function Read32(addr: nat): (w: Word)
      reads this
      ensures addr in words ==> w == words[addr]
      ensures addr !in words ==> w == 0
    {
      Read(words, addr)
    }

    method Write32(addr: nat, value: Word)
      modifies this
      ensures words == old(words)[addr := value]
    {
      words := words[addr := value];
    }
  }

  class BCM2835Mailbox {
    var temperature: real
    var readStatus: Word
    var readValue: Word
    const bus: SystemBus

    /** Only 25.0 is ever stored in the temperature, so its milli-degree value fits a word. */
    ghost predicate Valid()
      reads this
    {
      TemperatureFitsWord(temperature)
    }

    constructor (bus: SystemBus)
      ensures Valid() && this.bus == bus
      ensures temperature == InitialTemperature
      ensures readStatus == StatusEmpty && readValue == 0
    {
      this.bus := bus;
      temperature := InitialTemperature;
      readStatus := StatusEmpty;
      readValue := 0;
    }

    /** Restores the temperature and the empty status; the last written value stays. */
    method Reset()
      modifies this
      ensures Valid()
      ensures temperature == InitialTemperature && readStatus == StatusEmpty
      ensures readValue == old(readValue)
    {
      temperature := InitialTemperature;
      readStatus := StatusEmpty;
    }

    /**
     * READ returns the last written value and marks the mailbox empty; STATUS and PEEK
     * return a register without changing it; SENDER, CONFIG and every other offset read 0.
     */
    method ReadDoubleWord(offset: nat) returns (value: Word)
      modifies this`readStatus
      ensures offset == ReadOffset ==> value == readValue && readStatus == StatusEmpty
      ensures offset == StatusOffset ==> value == readStatus
      ensures offset == PeekOffset ==> value == readValue
      ensures offset !in {ReadOffset, StatusOffset, PeekOffset} ==> value == 0
      ensures offset != ReadOffset ==> readStatus == old(readStatus)
    {
      if offset == ReadOffset {
        value := readValue;
        readStatus := StatusEmpty;
      } else if offset == StatusOffset {
        value := readStatus;
      } else if offset == PeekOffset {
        value := readValue;
      } else if offset == SenderOffset {
        value := 0;
      } else if offset == ConfigOffset {
        value := 0;
      } else {
        value := 0;
      }
    }

    /**
     * A write at WRITE stores the value and marks the mailbox full, on any channel; on
     * channel 8 it first processes the property buffer at the value's buffer address.
     * A write at any other offset changes nothing. The source loop halts only at a zero
     * tag, so the model covers the writes whose walk reaches one within `fuel` tags.
     */
    method WriteDoubleWord(offset: nat, value: Word, ghost fuel: nat)
      requires Valid()
      requires offset == WriteOffset && Channel(value) == PropertyChannel ==>
                 Process(bus.words, BufferAddress(value), MilliDegrees(temperature), fuel).Some?
      modifies this`readValue, this`readStatus, bus
      ensures Valid() && temperature == old(temperature)
      ensures offset == WriteOffset ==> readValue == value && readStatus == StatusFull
      ensures offset == WriteOffset && Channel(value) == PropertyChannel ==>
                bus.words == Process(old(bus.words), BufferAddress(value), MilliDegrees(temperature), fuel).value
      ensures offset != WriteOffset || Channel(value) != PropertyChannel ==> bus.words == old(bus.words)
      ensures offset != WriteOffset ==> readValue == old(readValue) && readStatus == old(readStatus)
    {
      if offset == WriteOffset {
        var channel := Channel(value);
        var bufferAddr := BufferAddress(value);
        if channel == PropertyChannel {
          ProcessPropertyBuffer(bufferAddr, fuel);
        }
        readValue := value;
        readStatus := StatusFull;
      } else if offset == ConfigOffset {
      }
    }

    /** Stamps the buffer code and walks the tags up to the zero tag, in place on the bus. */
    method ProcessPropertyBuffer(bufferAddr: nat, ghost fuel: nat)
      requires Valid()
      requires Process(bus.words, bufferAddr, MilliDegrees(temperature), fuel).Some?
      modifies bus
      ensures bus.words == Process(old(bus.words), bufferAddr, MilliDegrees(temperature), fuel).value
    {
      var temp := MilliDegrees(temperature);
      ghost var result := Process(bus.words, bufferAddr, temp, fuel).value;
      bus.Write32(bufferAddr + 4, ResponseSuccess);
      var pos: nat := FirstTagOffset;
      ghost var left := fuel;
      while true
        invariant Walk(bus.words, bufferAddr, pos, temp, left) == Some(result)
        decreases left
      {
        var tag := bus.Read32(bufferAddr + pos);
        if tag == 0 {
          break;
        }
        ghost var here := pos;
        pos := pos + 4;
        var valueSize := bus.Read32(bufferAddr + pos);
        pos := pos + 4;
        var codePos := pos;
        pos := pos + 4;
        var valuePos := pos;
        pos := pos + PaddedSize(valueSize);
        var code := bus.Read32(bufferAddr + codePos);
        ghost var step := AnswerTag(bus.words, bufferAddr, here, temp);
        if code == 0 {
          bus.Write32(bufferAddr + codePos, ResponseCode(valueSize));
          if tag == TemperatureTag {
            bus.Write32(bufferAddr + valuePos + 4, temp);
          }
        }
        assert bus.words == step.mem && pos == step.pos;
        left := left - 1;
      }
    }
  }
}
