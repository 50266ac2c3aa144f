// One concrete body format for the supervisor's commands, so that the contract
// the framing asks of a format is known to be satisfiable: decimal fields,
// each closed by a comma.

module Wire {
  import opened Options
  import opened Control
  import Decimal

  datatype Command = Lease(leaseUntil: nat) | Close | Probe | SnapshotRequest | Open(leaseUntil: nat) | Stop

  const COMMA: byte := 44
  const ZERO: byte := 48

  function Text(ds: seq<nat>): bytes
    requires forall i :: 0 <= i < |ds| ==> ds[i] < 10
  {
    seq(|ds|, i requires 0 <= i < |ds| => ZERO + ds[i] as byte)
  }

  predicate IsText(data: bytes) {
    data != [] && forall i :: 0 <= i < |data| ==> ZERO <= data[i] < ZERO + 10
  }

  function Number(data: bytes): nat
    requires IsText(data)
  {
    Decimal.Value(seq(|data|, i requires 0 <= i < |data| => (data[i] - ZERO) as nat))
  }

  lemma NumberOfText(n: nat)
    ensures IsText(Text(Decimal.Digits(n))) && Number(Text(Decimal.Digits(n))) == n
  {
    var ds := Decimal.Digits(n);
    var data := Text(ds);
    assert seq(|data|, i requires 0 <= i < |data| => (data[i] - ZERO) as nat) == ds;
    Decimal.ValueOfDigits(n);
  }

  function WriteFields(fields: seq<nat>): bytes {
    if fields == [] then [] else Text(Decimal.Digits(fields[0])) + [COMMA] + WriteFields(fields[1..])
  }

  function FindComma(data: bytes): (i: int)
    ensures 0 <= i ==> i < |data|
  {
    if data == [] then -1
    else if data[0] == COMMA then 0
    else var i := FindComma(data[1..]); if i < 0 then -1 else i + 1
  }

  function ReadFields(data: bytes): Option<seq<nat>>
    decreases |data|
  {
    if data == [] then Some([])
    else
      var i := FindComma(data);
      if i < 0 || !IsText(data[..i]) then None
      else match ReadFields(data[i + 1..])
        case None => None
        case Some(rest) => Some([Number(data[..i])] + rest)
  }

  lemma {:induction false} FindFirstComma(text: bytes, rest: bytes)
    requires COMMA !in text
    ensures FindComma(text + [COMMA] + rest) == |text|
  {
    if text != [] {
      FindFirstComma(text[1..], rest);
      assert (text + [COMMA] + rest)[1..] == text[1..] + [COMMA] + rest;
    }
  }

  lemma {:induction false} FieldsRoundTrip(fields: seq<nat>)
    ensures ReadFields(WriteFields(fields)) == Some(fields)
    ensures NEWLINE !in WriteFields(fields)
  {
    if fields != [] {
      var text, rest := Text(Decimal.Digits(fields[0])), WriteFields(fields[1..]);
      var data := WriteFields(fields);
      NumberOfText(fields[0]);
      FindFirstComma(text, rest);
      assert data[..|text|] == text && data[|text| + 1..] == rest;
      FieldsRoundTrip(fields[1..]);
      assert fields == [fields[0]] + fields[1..];
    }
  }

  function FieldsOf(c: Command): seq<nat> {
    match c
    case Lease(leaseUntil) => [0, leaseUntil]
    case Close => [1, 0]
    case Probe => [2, 0]
    case SnapshotRequest => [3, 0]
    case Open(leaseUntil) => [4, leaseUntil]
    case Stop => [5, 0]
  }

  function CommandOf(tag: nat, argument: nat): Option<Command> {
    if tag == 0 then Some(Lease(argument))
    else if tag == 1 then Some(Close)
    else if tag == 2 then Some(Probe)
    else if tag == 3 then Some(SnapshotRequest)
    else if tag == 4 then Some(Open(argument))
    else if tag == 5 then Some(Command.Stop)
    else None
  }

  // Validation of the envelope: a positive generation and number, a stamp
  // that is not negative.
  predicate ValidEnvelope(m: Message<Command>) {
    1 <= m.generation && 1 <= m.number && 0 <= m.sentAt
  }

  function Write(m: Message<Command>): Option<bytes> {
    if ValidEnvelope(m) then Some(WriteFields([m.generation, m.number, m.sentAt] + FieldsOf(m.payload))) else None
  }

  function Read(data: bytes): Option<Message<Command>> {
    match ReadFields(data)
    case None => None
    case Some(fields) =>
      if |fields| != 5 then None
      else match CommandOf(fields[3], fields[4])
        case None => None
        case Some(command) =>
          var m := Message(fields[0], fields[1], fields[2], command);
          if ValidEnvelope(m) then Some(m) else None
  }

  const FORMAT: Codec<Command> := Codec(Write, Read)

  lemma MessageRoundTrip(m: Message<Command>)
    requires ValidEnvelope(m)
    ensures NEWLINE !in Write(m).value && Read(Write(m).value) == Some(m)
  {
    var fields := [m.generation, m.number, m.sentAt] + FieldsOf(m.payload);
    FieldsRoundTrip(fields);
    assert CommandOf(fields[3], fields[4]) == Some(m.payload);
  }

  lemma FormatIsLawful()
    ensures Lawful(FORMAT)
  {
    forall m: Message<Command> | FORMAT.write(m).Some?
      ensures NEWLINE !in FORMAT.write(m).value && FORMAT.read(FORMAT.write(m).value) == Some(m)
    {
      MessageRoundTrip(m);
    }
  }

  // Not vacuous: a command with small numbers fits well within the limit.
  lemma FormatAcceptsALease()
    ensures Encode(FORMAT, Message(1, 1, 0, Lease(7))).Some?
  {
    assert FORMAT.write(Message(1, 1, 0, Lease(7))) == Write(Message(1, 1, 0, Lease(7)));
    assert |WriteFields([7])| == 2;
    assert |WriteFields([0, 7])| == 4;
    assert |WriteFields([0, 0, 7])| == 6;
    assert |WriteFields([1, 0, 0, 7])| == 8;
    assert |WriteFields([1, 1, 0, 0, 7])| == 10;
    assert [1, 1, 0] + FieldsOf(Lease(7)) == [1, 1, 0, 0, 7];
  }
}
