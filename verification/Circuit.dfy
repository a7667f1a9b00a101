/** Cells, relay cells and one hop's layer of encryption (`phinet-core/src/circuit.rs`).

    SHA-256 and ChaCha20 are foreign calls. `Suite` carries them as functions about which nothing is
    known: `keystream(key, counter)` is the block XORed over a payload, and `tag(history)` is the
    first four bytes of the hash of everything fed to a running digest so far. A running digest is
    therefore the history itself. */
module Circuit {
  import opened Wrappers
  import opened Bytes

  const CELL_SIZE: nat := 512
  const CELL_PAYLOAD: nat := 507
  const RELAY_DATA_MAX: nat := 496
  const MAX_RELAY_EARLY: nat := 5

  type Payload = p: bytes | |p| == CELL_PAYLOAD witness Zeros(CELL_PAYLOAD)

  type Key32 = k: bytes | |k| == 32 witness Zeros(32)

  datatype Suite = Suite(keystream: (Key32, u64) -> Payload, tag: bytes -> u32)

  // ── Cells ───────────────────────────────────────────────────────────

  datatype CellCommand = Padding | Create | Created | Relay | Destroy | RelayEarly | Versions | NetInfo {
    function Byte(): byte {
      match this
      case Padding => 0
      case Create => 1
      case Created => 2
      case Relay => 3
      case Destroy => 4
      case RelayEarly => 5
      case Versions => 6
      case NetInfo => 7
    }
  }

  function CellCommandFromByte(b: byte): Option<CellCommand> {
    match b
    case 0 => Some(Padding)
    case 1 => Some(Create)
    case 2 => Some(Created)
    case 3 => Some(Relay)
    case 4 => Some(Destroy)
    case 5 => Some(RelayEarly)
    case 6 => Some(Versions)
    case 7 => Some(NetInfo)
    case _ => None
  }

  type CircuitId = u32

  datatype Cell = Cell(circId: CircuitId, command: CellCommand, payload: Payload)

  /** `Cell::with_payload`: zero-pads. What is put in a cell here always fits. */
  function CellWithPayload(id: CircuitId, command: CellCommand, data: bytes): Cell
    requires |data| <= CELL_PAYLOAD
  {
    Cell(id, command, data + Zeros(CELL_PAYLOAD - |data|))
  }

  function CellToBytes(c: Cell): (b: bytes)
    ensures |b| == CELL_SIZE
  {
    var be := Be32(c.circId);
    [be[3], be[2], be[1], be[0], c.command.Byte()] + c.payload
  }

  function CellFromBytes(b: bytes): Option<Cell>
    requires |b| == CELL_SIZE
  {
    var command :- CellCommandFromByte(b[4]);
    Some(Cell(FromBe32([b[3], b[2], b[1], b[0]]), command, b[5..]))
  }

  lemma CellRoundTrip(c: Cell)
    ensures CellFromBytes(CellToBytes(c)) == Some(c)
  {
    var be := Be32(c.circId);
    Be32RoundTrip(c.circId);
    assert be == [be[0], be[1], be[2], be[3]];
    assert CellToBytes(c)[5..] == c.payload;
  }

  // ── Relay cells ─────────────────────────────────────────────────────

  datatype RelayCommand =
    | Begin | Data | End | Connected | SendMe
    | Extend2 | Extended2 | Truncate | Truncated | Drop | ComInject
    | EstablishIntro | EstablishRendezvous | Introduce1 | Introduce2 | Rendezvous1 | Rendezvous2
    | IntroEstablished | RendezvousEstablished | IntroduceAck
  {
    function Byte(): byte {
      match this
      case Begin => 1
      case Data => 2
      case End => 3
      case Connected => 4
      case SendMe => 5
      case Extend2 => 6
      case Extended2 => 7
      case Truncate => 8
      case Truncated => 9
      case Drop => 10
      case ComInject => 11
      case EstablishIntro => 32
      case EstablishRendezvous => 33
      case Introduce1 => 34
      case Introduce2 => 35
      case Rendezvous1 => 36
      case Rendezvous2 => 37
      case IntroEstablished => 38
      case RendezvousEstablished => 39
      case IntroduceAck => 40
    }
  }

  function RelayCommandFromByte(b: byte): Option<RelayCommand> {
    match b
    case 1 => Some(Begin)
    case 2 => Some(Data)
    case 3 => Some(End)
    case 4 => Some(Connected)
    case 5 => Some(SendMe)
    case 6 => Some(Extend2)
    case 7 => Some(Extended2)
    case 8 => Some(Truncate)
    case 9 => Some(Truncated)
    case 10 => Some(Drop)
    case 11 => Some(ComInject)
    case 32 => Some(EstablishIntro)
    case 33 => Some(EstablishRendezvous)
    case 34 => Some(Introduce1)
    case 35 => Some(Introduce2)
    case 36 => Some(Rendezvous1)
    case 37 => Some(Rendezvous2)
    case 38 => Some(IntroEstablished)
    case 39 => Some(RendezvousEstablished)
    case 40 => Some(IntroduceAck)
    case _ => None
  }

  type RelayData = d: bytes | |d| <= RELAY_DATA_MAX

  datatype RelayCell = RelayCell(
    command: RelayCommand, recognized: u16, streamId: u16, digest: u32, data: RelayData)

  function ToPayload(rc: RelayCell): Payload {
    [rc.command.Byte()] + Be16(rc.recognized) + Be16(rc.streamId) + Be32(rc.digest) + Be16(|rc.data|)
    + rc.data + Zeros(RELAY_DATA_MAX - |rc.data|)
  }

  function FromPayload(p: Payload): Option<RelayCell> {
    var command :- RelayCommandFromByte(p[0]);
    var length := FromBe16(p[9..11]);
    if length > RELAY_DATA_MAX then None
    else Some(RelayCell(command, FromBe16(p[1..3]), FromBe16(p[3..5]), FromBe32(p[5..9]), p[11..11 + length]))
  }

  lemma RelayCellRoundTrip(rc: RelayCell)
    ensures FromPayload(ToPayload(rc)) == Some(rc)
  {
    var p := ToPayload(rc);
    assert p[1..3] == Be16(rc.recognized);
    assert p[3..5] == Be16(rc.streamId);
    assert p[5..9] == Be32(rc.digest);
    assert p[9..11] == Be16(|rc.data|);
    assert p[11..11 + |rc.data|] == rc.data;
    Be32RoundTrip(rc.digest);
  }

  /** The payload with its digest field zeroed, which is what both ends hash. */
  function Blank(p: Payload): Payload {
    p[..5] + [0, 0, 0, 0] + p[9..]
  }

  predicate IsRecognizedAt(s: Suite, rc: RelayCell, p: Payload, running: bytes) {
    rc.recognized == 0 && s.tag(running + Blank(p)) == rc.digest
  }

  /** Both tests a hop makes on a payload it has just peeled: it parses, and it is recognized. */
  predicate RecognizedPayload(s: Suite, p: Payload, running: bytes) {
    FromPayload(p).Some? && IsRecognizedAt(s, FromPayload(p).value, p, running)
  }

  /** `stamp_digest`: the stamped cell and the advanced running digest. */
  function StampDigest(s: Suite, rc: RelayCell, running: bytes): (RelayCell, bytes) {
    var running' := running + Blank(ToPayload(rc.(digest := 0)));
    (rc.(digest := s.tag(running')), running')
  }

  /** What the originator stamps, the addressee recognizes with the same history, reads back
      unchanged, and leaves with the same new history. */
  lemma StampedIsRecognized(s: Suite, rc: RelayCell, running: bytes)
    requires rc.recognized == 0
    ensures var (rc', running') := StampDigest(s, rc, running);
            && FromPayload(ToPayload(rc')) == Some(rc')
            && IsRecognizedAt(s, rc', ToPayload(rc'), running)
            && running' == running + Blank(ToPayload(rc'))
            && rc'.(digest := rc.digest) == rc
  {
    var (rc', running') := StampDigest(s, rc, running);
    RelayCellRoundTrip(rc');
    assert Blank(ToPayload(rc')) == Blank(ToPayload(rc.(digest := 0)));
  }

  // ── One hop's symmetric state ───────────────────────────────────────

  /** One direction of a hop: its key, its keystream counter and its running digest. */
  datatype Half = Half(key: Key32, nonce: u64, digest: bytes)

  datatype HopState = HopState(forward: Half, backward: Half)

  /** `crypt_in_place` followed by the counter increment. Encryption and decryption are this same
      operation, so all four `onion_*` functions of the source are `OnionForward` or `OnionBackward`. */
  function Crypt(s: Suite, h: Half, p: Payload): (Half, Payload) {
    (h.(nonce := WrapSucc(h.nonce)), Layer(s, h.key, h.nonce, p))
  }

  function Layer(s: Suite, key: Key32, nonce: u64, p: Payload): Payload {
    Xor(p, s.keystream(key, nonce))
  }

  function OnionForward(s: Suite, hop: HopState, p: Payload): (HopState, Payload) {
    var (h, p') := Crypt(s, hop.forward, p);
    (hop.(forward := h), p')
  }

  function OnionBackward(s: Suite, hop: HopState, p: Payload): (HopState, Payload) {
    var (h, p') := Crypt(s, hop.backward, p);
    (hop.(backward := h), p')
  }

  lemma LayerInvolution(s: Suite, key: Key32, nonce: u64, p: Payload)
    ensures Layer(s, key, nonce, Layer(s, key, nonce, p)) == p
  {
    XorInvolution(p, s.keystream(key, nonce));
  }
}
