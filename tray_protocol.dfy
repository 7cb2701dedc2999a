/** The parts of the freedesktop.org System Tray Protocol that the tray icon
    uses: the name of the manager selection ("Locating the system tray") and
    the SYSTEM_TRAY_REQUEST_DOCK opcode message ("Docking a tray icon"). */
module TrayProtocol {
  import opened Wrappers

  /** A C int: the type of the screen number. */
  type CInt = i: int | -0x8000_0000 <= i < 0x8000_0000

  /** Prefix of the manager selection name; the screen number follows it. */
  const SelectionPrefix: string := "_NET_SYSTEM_TRAY_S"
  /** Name of the atom that discriminates tray opcode messages. */
  const OpcodeAtomName: string := "_NET_SYSTEM_TRAY_OPCODE"
  /** Size of the buffer the selection name is formatted into, NUL included. */
  const SelectionNameBufferSize: nat := 64

  /** X11 event type of a client message. */
  const ClientMessageType: nat := 33
  /** X11 CurrentTime, the timestamp placeholder. */
  const CurrentTime: int := 0
  /** X11 NoEventMask: the dock request is sent with no event mask. */
  const NoEventMask: nat := 0
  /** Opcode 0 of the tray protocol. */
  const SystemTrayRequestDock: int := 0

  predicate IsDigit(c: char)
  {
    '0' <= c <= '9'
  }

  function DigitChar(d: nat): (c: char)
    requires d < 10
    ensures IsDigit(c)
  {
    ('0' as int + d) as char
  }

  /** The decimal digits of n, most significant first, without leading zeros. */
  function NatToDecimal(n: nat): (s: string)
    ensures |s| >= 1
    ensures forall i :: 0 <= i < |s| ==> IsDigit(s[i])
    ensures |s| > 1 ==> s[0] != '0'
  {
    if n < 10 then [DigitChar(n)] else NatToDecimal(n / 10) + [DigitChar(n % 10)]
  }

  /** The value of a string of decimal digits. */
  function DecimalValue(s: string): nat
    requires forall i :: 0 <= i < |s| ==> IsDigit(s[i])
  {
    if s == [] then 0
    else assert IsDigit(s[|s| - 1]); DecimalValue(s[..|s| - 1]) * 10 + (s[|s| - 1] as int - '0' as int)
  }

  /** What printf's "%d" produces for i. */
  function FormatInt(i: int): string
  {
    if i < 0 then "-" + NatToDecimal(-i) else NatToDecimal(i)
  }

  /** Reads back what "%d" wrote: an optional minus sign and at least one
      digit; anything else is rejected. */
  function ParseInt(s: string): Option<int>
  {
    if |s| > 0 && s[0] == '-' then
      if |s| > 1 && forall i :: 1 <= i < |s| ==> IsDigit(s[i]) then Some(-(DecimalValue(s[1..]) as int)) else None
    else if |s| > 0 && forall i :: 0 <= i < |s| ==> IsDigit(s[i]) then Some(DecimalValue(s))
    else None
  }

  lemma {:induction false} DecimalRoundTrip(n: nat)
    ensures DecimalValue(NatToDecimal(n)) == n
  {
    if n >= 10 {
      DecimalRoundTrip(n / 10);
      var s := NatToDecimal(n);
      assert s[..|s| - 1] == NatToDecimal(n / 10);
    }
  }

  /** The decimal form of a C int parses back to that int. */
  lemma FormatIntRoundTrip(i: int)
    ensures ParseInt(FormatInt(i)) == Some(i)
  {
    if i < 0 {
      DecimalRoundTrip(-i);
      assert FormatInt(i)[1..] == NatToDecimal(-i);
    } else {
      DecimalRoundTrip(i);
    }
  }

  function Pow10(k: nat): nat
  {
    if k == 0 then 1 else 10 * Pow10(k - 1)
  }

  lemma {:induction false} DecimalLength(n: nat, k: nat)
    requires 1 <= k && n < Pow10(k)
    ensures |NatToDecimal(n)| <= k
  {
    if n >= 10 {
      DecimalLength(n / 10, k - 1);
    }
  }

  /** "%d" of a C int takes at most 11 characters ("-2147483648"). */
  lemma FormatIntLength(i: CInt)
    ensures 1 <= |FormatInt(i)| <= 11
  {
    assert Pow10(10) == 10_000_000_000;
    if i < 0 {
      DecimalLength(-(i as int), 10);
    } else {
      DecimalLength(i, 10);
    }
  }

  /** The name of the selection the tray manager of a screen owns. */
  function TraySelectionName(screen: CInt): (name: string)
    ensures |SelectionPrefix| < |name| < SelectionNameBufferSize
    ensures name[..|SelectionPrefix|] == SelectionPrefix
  {
    FormatIntLength(screen);
    SelectionPrefix + FormatInt(screen)
  }

  /** The screen a manager selection name designates, if it is one. */
  function SelectionScreen(name: string): Option<int>
  {
    if |name| >= |SelectionPrefix| && name[..|SelectionPrefix|] == SelectionPrefix
    then ParseInt(name[|SelectionPrefix|..])
    else None
  }

  /** Distinct screens get distinct selection names: the screen number can
      be read back from the name. */
  lemma SelectionNameIdentifiesScreen(screen: CInt)
    ensures SelectionScreen(TraySelectionName(screen)) == Some(screen)
  {
    var name := TraySelectionName(screen);
    assert name[|SelectionPrefix|..] == FormatInt(screen);
    FormatIntRoundTrip(screen);
  }

  /** An X ClientMessage event with 32-bit data (the xclient member of
      XEvent); data holds data.l[0..4]. */
  datatype ClientMessage = ClientMessage(
    eventType: nat, window: nat, messageType: nat, format: nat, data: seq<int>)

  /** The dock request a client sends to the tray manager's window. */
  function DockRequest(trayWindow: nat, opcodeAtom: nat, iconWindow: nat): ClientMessage
  {
    ClientMessage(ClientMessageType, trayWindow, opcodeAtom, 32,
      [CurrentTime, SystemTrayRequestDock, iconWindow, 0, 0])
  }

  /** How a tray manager reads an opcode message: the window to dock, when
      the message is a well-formed SYSTEM_TRAY_REQUEST_DOCK. */
  function RequestedDock(ev: ClientMessage, opcodeAtom: nat): Option<nat>
  {
    if ev.eventType == ClientMessageType && ev.messageType == opcodeAtom && ev.format == 32
       && |ev.data| == 5 && ev.data[1] == SystemTrayRequestDock && ev.data[2] >= 0
    then Some(ev.data[2])
    else None
  }

  /** The dock request is addressed to the tray window, and the manager reads
      from it a request to dock exactly the icon window. */
  lemma DockRequestRoundTrip(trayWindow: nat, opcodeAtom: nat, iconWindow: nat)
    ensures DockRequest(trayWindow, opcodeAtom, iconWindow).window == trayWindow
    ensures RequestedDock(DockRequest(trayWindow, opcodeAtom, iconWindow), opcodeAtom) == Some(iconWindow)
    ensures DockRequest(trayWindow, opcodeAtom, iconWindow).data == [CurrentTime, SystemTrayRequestDock, iconWindow, 0, 0]
  {
  }
}
