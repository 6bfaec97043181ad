/** The kernel entry point and its console output. The console is a PL011
    UART whose data register is mapped at 0x09000000; every byte stored there
    is transmitted. The model records the transmitted bytes, in order, as the
    UART's `sent` log, which only ever grows. */
module Kernel {
  import opened Sizes

  /** Physical address of the UART data register. */
  const UART_ADDRESS: nat := 0x0900_0000

  /** The UART data register: `sent` is every byte stored to it so far. */
  class Uart {
    const address: nat
    var sent: seq<u8>

    constructor ()
      ensures address == UART_ADDRESS && sent == []
    {
      address := UART_ADDRESS;
      sent := [];
    }
  }

  /** The kernel's global state: the pointer to the UART data register. The
      pointer is set once and never reassigned. */
  class Kernel {
    const uart: Uart

    constructor ()
      ensures fresh(uart) && uart.address == UART_ADDRESS && uart.sent == []
    {
      uart := new Uart();
    }

    /** Stores one byte to the UART data register. */
    method PutChar(c: u8)
      modifies uart
      ensures uart.sent == old(uart.sent) + [c]
    {
      uart.sent := uart.sent + [c];
    }

    /** Transmits the NUL-terminated string s, one byte at a time, up to and
        not including its first NUL. */
    method Print(s: array<u8>)
      requires 0 in s[..]
      modifies uart
      ensures uart.sent == old(uart.sent) + UntilNul(s[..])
    {
      var i := 0;
      while s[i] != 0
        invariant 0 <= i < s.Length
        invariant forall j :: 0 <= j < i ==> s[j] != 0
        invariant 0 in s[i..]
        invariant uart.sent == old(uart.sent) + s[..i]
        decreases s.Length - i
      {
        PutChar(s[i]);
        assert s[..i + 1] == s[..i] + [s[i]];
        i := i + 1;
      }
      UntilNulOfPrefix(s[..], i);
    }

    /** The kernel entry point: prints the banner "BHARMOS Kernel\n". */
    method KMain()
      modifies uart
      ensures uart.sent == old(uart.sent) + Banner
    {
      var s := new u8[16] [66, 72, 65, 82, 77, 79, 83, 32, 75, 101, 114, 110, 101, 108, 10, 0];
      assert s[..] == Banner + [0];
      BannerHasNoNul();
      UntilNulOfTerminated(Banner, []);
      Print(s);
    }
  }

  /** The bytes of a NUL-terminated string before its first NUL. */
  function UntilNul(s: seq<u8>): (r: seq<u8>)
    requires 0 in s
    ensures |r| < |s| && r == s[..|r|] && s[|r|] == 0
    ensures forall j :: 0 <= j < |r| ==> r[j] != 0
  {
    if s[0] == 0 then []
    else [s[0]] + UntilNul(s[1..])
  }

  /** UntilNul is the prefix before the first NUL: when s[i] is a NUL and no
      byte before it is, UntilNul(s) is s[..i]. */
  lemma {:induction false} UntilNulOfPrefix(s: seq<u8>, i: nat)
    requires i < |s| && s[i] == 0
    requires forall j :: 0 <= j < i ==> s[j] != 0
    ensures 0 in s && UntilNul(s) == s[..i]
  {
    assert s[i] in s;
    if i > 0 {
      var t := s[1..];
      assert t[i - 1] == s[i];
      UntilNulOfPrefix(t, i - 1);
      assert s[..i] == [s[0]] + t[..i - 1];
    }
  }

  /** A NUL-free string followed by a NUL reads back as itself, whatever
      comes after the terminator. */
  lemma UntilNulOfTerminated(b: seq<u8>, rest: seq<u8>)
    requires forall j :: 0 <= j < |b| ==> b[j] != 0
    ensures 0 in b + [0] + rest && UntilNul(b + [0] + rest) == b
  {
    var s := b + [0] + rest;
    UntilNulOfPrefix(s, |b|);
    assert s[..|b|] == b;
  }

  /** The kernel banner. */
  const Banner: seq<u8> := [66, 72, 65, 82, 77, 79, 83, 32, 75, 101, 114, 110, 101, 108, 10]

  /** The banner is the 15 ASCII bytes of "BHARMOS Kernel\n". */
  lemma BannerText()
    ensures |Banner| == 15 && forall j :: 0 <= j < 15 ==> Banner[j] == "BHARMOS Kernel\n"[j] as int
  {
  }

  /** The banner contains no NUL, so printing it stops exactly at the
      literal's terminator. */
  lemma BannerHasNoNul()
    ensures forall j :: 0 <= j < |Banner| ==> Banner[j] != 0
  {
  }
}
