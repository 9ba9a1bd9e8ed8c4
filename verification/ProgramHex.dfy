/** Program ids as eight 32-bit words and as thirty-two bytes, least significant byte of each word first. */
module ProgramHex {

  newtype byte = x: int | 0 <= x < 0x100
  newtype word = x: int | 0 <= x < 0x1_0000_0000

  type Program = s: seq<word> | |s| == 8 witness [0, 0, 0, 0, 0, 0, 0, 0]
  type Hex32 = s: seq<byte> | |s| == 32 witness seq(32, _ => 0)

  // ----- Little-endian bytes ------------------------------------------------------------------------

  function BytesOf(n: nat, k: nat): (bytes: seq<byte>)
    ensures |bytes| == k
  {
    if k == 0 then [] else [(n % 0x100) as byte] + BytesOf(n / 0x100, k - 1)
  }

  function NumberOf(bytes: seq<byte>): nat {
    if bytes == [] then 0 else bytes[0] as nat + 0x100 * NumberOf(bytes[1..])
  }

  function Power(k: nat): nat { if k == 0 then 1 else 0x100 * Power(k - 1) }

  lemma {:induction false} NumberOfBytes(n: nat, k: nat)
    requires n < Power(k)
    ensures NumberOf(BytesOf(n, k)) == n
    decreases k
  {
    if k > 0 {
      NumberOfBytes(n / 0x100, k - 1);
      assert BytesOf(n, k)[1..] == BytesOf(n / 0x100, k - 1);
    }
  }

  lemma {:induction false} BytesOfNumber(bytes: seq<byte>)
    ensures NumberOf(bytes) < Power(|bytes|)
    ensures BytesOf(NumberOf(bytes), |bytes|) == bytes
    decreases |bytes|
  {
    if bytes != [] {
      BytesOfNumber(bytes[1..]);
      Carry(bytes[0], NumberOf(bytes[1..]));
      assert bytes == [bytes[0]] + bytes[1..];
    }
  }

  lemma Carry(low: byte, high: nat)
    ensures (low as nat + 0x100 * high) % 0x100 == low as nat && (low as nat + 0x100 * high) / 0x100 == high
  {
  }

  lemma FourBytes()
    ensures Power(4) == 0x1_0000_0000
  {
    assert Power(1) == 0x100 && Power(2) == 0x1_0000 && Power(3) == 0x100_0000;
  }

  // ----- Both forms of a program id -----------------------------------------------------------------

  /** Word `n` of a byte string. */
  function WordAt(hex: Hex32, n: nat): word
    requires n < 8
  {
    BytesOfNumber(hex[4 * n..4 * n + 4]);
    FourBytes();
    NumberOf(hex[4 * n..4 * n + 4]) as word
  }

  /** A word written low byte first at place `n` of a byte string. */
  predicate LittleEndianAt(hex: Hex32, n: nat, w: word)
    requires n < 8
  {
    w as nat == hex[4 * n] as nat + 0x100 * hex[4 * n + 1] as nat + 0x1_0000 * hex[4 * n + 2] as nat
                + 0x100_0000 * hex[4 * n + 3] as nat
  }

  lemma WordIsLittleEndian(hex: Hex32, n: nat)
    requires n < 8
    ensures LittleEndianAt(hex, n, WordAt(hex, n))
  {
    DigitsOf(hex[4 * n..4 * n + 4]);
  }

  lemma DigitsOf(bytes: seq<byte>)
    requires |bytes| == 4
    ensures NumberOf(bytes) == bytes[0] as nat + 0x100 * bytes[1] as nat + 0x1_0000 * bytes[2] as nat
                               + 0x100_0000 * bytes[3] as nat
  {
    var three, two, one := bytes[1..], bytes[2..], bytes[3..];
    assert three[1..] == two && two[1..] == one && one[1..] == [];
    assert NumberOf(one) == bytes[3] as nat;
    assert NumberOf(two) == bytes[2] as nat + 0x100 * NumberOf(one);
    assert NumberOf(three) == bytes[1] as nat + 0x100 * NumberOf(two);
  }

  function HexOf(program: Program): Hex32 {
    seq(32, i requires 0 <= i < 32 => BytesOf(program[i / 4] as nat, 4)[i % 4])
  }

  function ProgramOf(hex: Hex32): Program { seq(8, n requires 0 <= n < 8 => WordAt(hex, n)) }

  /** `program_id_to_hex`: each word fills its four bytes in turn. */
  method ToHex(program: Program) returns (hex: Hex32)
    ensures hex == HexOf(program)
    ensures forall n: nat :: n < 8 ==> LittleEndianAt(hex, n, program[n])
  {
    var bytes: seq<byte> := [];
    for n := 0 to 8
      invariant |bytes| == 4 * n
      invariant forall i :: 0 <= i < 4 * n ==> bytes[i] == BytesOf(program[i / 4] as nat, 4)[i % 4]
    {
      bytes := bytes + BytesOf(program[n] as nat, 4);
    }
    hex := bytes;
    assert hex == HexOf(program);
    forall n: nat | n < 8 ensures LittleEndianAt(hex, n, program[n]) {
      WordComesBack(program, n);
      WordIsLittleEndian(hex, n);
    }
  }

  /** `program_id_from_hex`: each chunk of four bytes is a word. */
  method FromHex(hex: Hex32) returns (program: Program)
    ensures program == ProgramOf(hex)
    ensures forall n: nat :: n < 8 ==> LittleEndianAt(hex, n, program[n])
  {
    var words: seq<word> := [];
    for n := 0 to 8
      invariant |words| == n && forall k :: 0 <= k < n ==> words[k] == WordAt(hex, k)
    {
      words := words + [WordAt(hex, n)];
    }
    program := words;
    forall n: nat | n < 8 ensures LittleEndianAt(hex, n, program[n]) { WordIsLittleEndian(hex, n); }
  }

  /** The two forms of a program id determine each other. */
  lemma HexRoundTrip(program: Program, hex: Hex32)
    ensures ProgramOf(HexOf(program)) == program
    ensures HexOf(ProgramOf(hex)) == hex
  {
    forall n | 0 <= n < 8 ensures ProgramOf(HexOf(program))[n] == program[n] { WordComesBack(program, n); }
    forall i | 0 <= i < 32 ensures HexOf(ProgramOf(hex))[i] == hex[i] { ByteComesBack(hex, i / 4, i % 4); }
  }

  lemma WordComesBack(program: Program, n: nat)
    requires n < 8
    ensures WordAt(HexOf(program), n) == program[n]
  {
    var hex, bytes := HexOf(program), BytesOf(program[n] as nat, 4);
    assert forall k :: 0 <= k < 4 ==> hex[4 * n + k] == bytes[k];
    assert hex[4 * n..4 * n + 4] == bytes;
    FourBytes();
    NumberOfBytes(program[n] as nat, 4);
  }

  lemma ByteComesBack(hex: Hex32, n: nat, k: nat)
    requires n < 8 && k < 4
    ensures BytesOf(WordAt(hex, n) as nat, 4)[k] == hex[4 * n + k]
  {
    BytesOfNumber(hex[4 * n..4 * n + 4]);
  }
}
