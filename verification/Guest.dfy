/** The zkVM guest program (crates/methods/guest/src/main.rs) and the two parsers of the journal
    it commits: the prover's (crates/prover/src/lib.rs) and the contract's (JobRegistry.sol). */
module Guest {
  import opened Core

  const U64_LIMIT: nat := 0x1_0000_0000_0000_0000

  // ----- arithmetic ---------------------------------------------------------------------------

  /** The Fibonacci numbers, without any bound. */
  function Fib(n: nat): nat {
    if n < 2 then n else Fib(n - 1) + Fib(n - 2)
  }

  lemma AdditionStep(a: int, b: int, c: int, d: int, ab: int, cd: int, x: int)
    requires ab == a + b && cd == c + d && x == a * cd + b * c
    ensures x == ab * c + a * d
  {
  }

  /** The addition law, which with Fib(1) and Fib(2) says what every Fibonacci number is. */
  lemma {:induction false} FibAddition(m: nat, n: nat)
    ensures Fib(1) == 1 && Fib(2) == 1
    ensures Fib(m + n + 1) == Fib(m + 1) * Fib(n + 1) + Fib(m) * Fib(n)
  {
    if m == 0 {
      assert Fib(1) * Fib(n + 1) == Fib(n + 1) && Fib(0) * Fib(n) == 0;
    } else {
      FibAddition(m - 1, n + 1);
      AdditionStep(Fib(m), Fib(m - 1), Fib(n + 1), Fib(n), Fib(m + 1), Fib(n + 2), Fib(m + n + 1));
    }
  }

  /** Reducing the summands first does not change a sum modulo 2^64. */
  lemma WrappingSum(x: nat, y: nat)
    ensures (x % U64_LIMIT + y % U64_LIMIT) % U64_LIMIT == (x + y) % U64_LIMIT
  {
  }

  /** The guest's loop on wrapping 64-bit words computes Fibonacci numbers modulo 2^64. */
  method Fibonacci(n: nat) returns (r: nat)
    requires n < U64_LIMIT
    ensures r == Fib(n) % U64_LIMIT
  {
    if n == 0 {
      return 0;
    }
    if n == 1 {
      return 1;
    }
    var a, b := 0, 1;
    for i := 2 to n + 1
      invariant a == Fib(i - 2) % U64_LIMIT && b == Fib(i - 1) % U64_LIMIT
    {
      WrappingSum(Fib(i - 2), Fib(i - 1));
      var next := (a + b) % U64_LIMIT;
      a := b;
      b := next;
    }
    return b;
  }

  // ----- little-endian words ------------------------------------------------------------------

  function LittleEndian(b: Bytes): nat {
    if b == [] then 0 else b[0] + 256 * LittleEndian(b[1..])
  }

  function ToLittleEndian(n: nat, width: nat): (b: Bytes)
    ensures |b| == width
  {
    if width == 0 then [] else [n % 256] + ToLittleEndian(n / 256, width - 1)
  }

  function Pow256(k: nat): nat {
    if k == 0 then 1 else 256 * Pow256(k - 1)
  }

  lemma Regroup(a: int, p: int, c: int)
    ensures 256 * (a + p * c) == 256 * a + 256 * p * c
  {
  }

  /** What bytes are worth: one byte its value, the bytes after k others 256^k times as much. */
  lemma {:induction false} LittleEndianSplit(a: Bytes, b: Bytes, x: Byte)
    ensures LittleEndian([x]) == x
    ensures LittleEndian(a + b) == LittleEndian(a) + Pow256(|a|) * LittleEndian(b)
  {
    assert [x][1..] == [];
    if a == [] {
      assert a + b == b;
    } else {
      LittleEndianSplit(a[1..], b, x);
      assert (a + b)[1..] == a[1..] + b;
      Regroup(LittleEndian(a[1..]), Pow256(|a| - 1), LittleEndian(b));
    }
  }

  lemma {:induction false} LittleEndianBound(b: Bytes)
    ensures LittleEndian(b) < Pow256(|b|)
  {
    if b == [] {
    } else {
      LittleEndianBound(b[1..]);
    }
  }

  /** Decoding what was encoded gives the number back. */
  lemma {:induction false} LittleEndianOfWord(n: nat, width: nat)
    requires n < Pow256(width)
    ensures LittleEndian(ToLittleEndian(n, width)) == n
  {
    if width == 0 {
    } else {
      LittleEndianOfWord(n / 256, width - 1);
      assert ToLittleEndian(n, width)[1..] == ToLittleEndian(n / 256, width - 1);
    }
  }

  /** Encoding what was decoded gives the bytes back. */
  lemma {:induction false} WordOfLittleEndian(b: Bytes)
    ensures ToLittleEndian(LittleEndian(b), |b|) == b
  {
    if b == [] {
    } else {
      WordOfLittleEndian(b[1..]);
    }
  }

  /** Trailing zero bytes do not change a little-endian value. */
  lemma {:induction false} ZeroPadding(b: Bytes, zeros: Bytes)
    requires forall i :: 0 <= i < |zeros| ==> zeros[i] == 0
    ensures LittleEndian(b + zeros) == LittleEndian(b)
    decreases |b| + |zeros|
  {
    if b == [] && zeros == [] {
    } else if b == [] {
      assert b + zeros == zeros && [] + zeros[1..] == zeros[1..];
      ZeroPadding([], zeros[1..]);
    } else {
      assert (b + zeros)[1..] == b[1..] + zeros;
      ZeroPadding(b[1..], zeros);
    }
  }

  lemma Pow256Of8()
    ensures Pow256(8) == U64_LIMIT
  {
    assert Pow256(4) == 0x1_0000_0000;
  }

  // ----- the guest ----------------------------------------------------------------------------

  /** The number a payload stands for: its first eight bytes, or all of them if there are fewer. */
  function InputNumber(data: Bytes): nat {
    LittleEndian(if |data| >= 8 then data[..8] else data)
  }

  const ZEROS: Bytes := [0, 0, 0, 0, 0, 0, 0, 0]

  /** The eight bytes of that number are the first eight of the payload followed by zeros. */
  lemma InputBytes(data: Bytes)
    ensures InputNumber(data) < U64_LIMIT
    ensures ToLittleEndian(InputNumber(data), 8) == (data + ZEROS)[..8]
  {
    var word := (data + ZEROS)[..8];
    Pow256Of8();
    LittleEndianBound(word);
    WordOfLittleEndian(word);
    if |data| >= 8 {
      assert word == data[..8];
    } else {
      assert word == data + ZEROS[..8 - |data|];
      ZeroPadding(data, ZEROS[..8 - |data|]);
    }
  }

  method ReadInput(data: Bytes) returns (n: nat)
    ensures n == InputNumber(data) && n < 0x1_0000_0000_0000_0000
    ensures ToLittleEndian(n, 8) == (data + ZEROS)[..8]
  {
    InputBytes(data);
    if |data| >= 8 {
      n := LittleEndian(data[..8]);
    } else {
      var buf := new Byte[8](i => 0);
      for i := 0 to |data|
        invariant buf[..i] == data[..i]
        invariant forall k :: i <= k < 8 ==> buf[k] == 0
      {
        buf[i] := data[i];
      }
      n := LittleEndian(buf[..]);
      assert data[..|data|] == data;
      assert buf[..] == buf[..|data|] + buf[|data|..];
      ZeroPadding(data, buf[|data|..]);
    }
  }

  /** No other 64-bit number has these bytes. */
  lemma InputIsUnique(data: Bytes)
    ensures forall n: nat :: n < U64_LIMIT && ToLittleEndian(n, 8) == (data + ZEROS)[..8] ==> n == InputNumber(data)
  {
    forall n: nat | n < U64_LIMIT && ToLittleEndian(n, 8) == (data + ZEROS)[..8]
      ensures n == InputNumber(data)
    {
      InputBytes(data);
      Pow256Of8();
      LittleEndianOfWord(n, 8);
      LittleEndianOfWord(InputNumber(data), 8);
    }
  }

  datatype JobOutput = JobOutput(jobId: JobId, payloadHash: Bytes32, result: Bytes)

  /** What the guest claims about a job: its id, the hash of its payload and the answer. */
  function Answer(sha256: Hash, jobId: JobId, data: Bytes): JobOutput {
    JobOutput(jobId, sha256(data), ToLittleEndian(Fib(InputNumber(data)) % U64_LIMIT, 8))
  }

  /** The journal layout: job id, payload hash, result. */
  function Encode(o: JobOutput): (journal: Bytes)
    ensures |journal| >= 64 && journal[..32] == o.jobId && journal[32..64] == o.payloadHash && journal[64..] == o.result
  {
    o.jobId + o.payloadHash + o.result
  }

  /** The journal answers the number n whose bytes the payload starts with. */
  method RunGuest(sha256: Hash, jobId: JobId, data: Bytes) returns (journal: Bytes, ghost n: nat)
    ensures journal == Encode(Answer(sha256, jobId, data))
    ensures n < U64_LIMIT && ToLittleEndian(n, 8) == (data + ZEROS)[..8]
    ensures |journal| == 72 && journal[..32] == jobId && journal[32..64] == sha256(data)
    ensures journal[64..] == ToLittleEndian(Fib(n) % U64_LIMIT, 8)
  {
    var number := ReadInput(data);
    n := number;
    var fibResult := Fibonacci(number);
    var result := ToLittleEndian(fibResult, 8);
    var payloadHash := sha256(data);
    journal := [];
    journal := journal + jobId;
    assert journal == jobId;
    journal := journal + payloadHash;
    journal := journal + result;
    ghost var o := Answer(sha256, jobId, data);
    assert o.jobId == jobId && o.payloadHash == payloadHash && o.result == result;
    assert journal == Encode(o);
  }

  // ----- the prover's parser ------------------------------------------------------------------

  datatype ProverError = JournalDecodeFailed(length: nat)

  function Decode(journal: Bytes): Result<JobOutput, ProverError> {
    if |journal| < 64 then
      Err(JournalDecodeFailed(|journal|))
    else
      Ok(JobOutput(journal[0..32], journal[32..64], journal[64..]))
  }

  /** The prover's parser is the two-sided inverse of the layout: it accepts exactly the byte
      strings that are some output's journal. */
  lemma DecodeInvertsEncode(o: JobOutput, journal: Bytes)
    ensures Decode(Encode(o)) == Ok(o)
    ensures Decode(journal) == Ok(o) <==> journal == Encode(o)
    ensures Decode(journal).Err? <==> |journal| < 64
  {
    if |journal| >= 64 {
      assert journal == journal[0..32] + journal[32..64] + journal[64..];
    }
  }

  // ----- the contract's parser ----------------------------------------------------------------

  datatype JournalError = InvalidJournal | JobIdMismatch | PayloadMismatch

  function CheckJournal(sha256: Hash, journal: Bytes, jobId: JobId, payload: Bytes): Option<JournalError> {
    if |journal| < 64 then
      Some(InvalidJournal)
    else if journal[0..32] != jobId then
      Some(JobIdMismatch)
    else if journal[32..64] != sha256(payload) then
      Some(PayloadMismatch)
    else
      None
  }

  /** The two parsers agree: the contract accepts a journal for a job exactly when the prover
      decodes it to an output that names the job and the hash of its payload, and the bytes the
      contract then publishes are the decoded result. */
  lemma ContractAgreesWithProver(sha256: Hash, journal: Bytes, jobId: JobId, payload: Bytes)
    ensures CheckJournal(sha256, journal, jobId, payload) == None <==>
            Decode(journal).Ok? && Decode(journal).value.jobId == jobId &&
            Decode(journal).value.payloadHash == sha256(payload)
    ensures CheckJournal(sha256, journal, jobId, payload) == None <==>
            exists result: Bytes :: journal == Encode(JobOutput(jobId, sha256(payload), result))
  {
    if CheckJournal(sha256, journal, jobId, payload) == None {
      DecodeInvertsEncode(JobOutput(jobId, sha256(payload), journal[64..]), journal);
    }
    forall result: Bytes | journal == Encode(JobOutput(jobId, sha256(payload), result))
      ensures CheckJournal(sha256, journal, jobId, payload) == None
    {
      DecodeInvertsEncode(JobOutput(jobId, sha256(payload), result), journal);
    }
  }

  /** End to end: the guest's journal for (jobId, data) is decoded by the prover to the right
      answer, whose eight result bytes stand for the n-th Fibonacci number modulo 2^64, where the first
      eight bytes of data, filled up with zeros, stand for n; the contract accepts it for
      (other, payload) exactly when the ids agree and the payload hashes agree. */
  lemma GuestRoundTrip(sha256: Hash, jobId: JobId, data: Bytes, n: nat, other: JobId, payload: Bytes)
    requires n < U64_LIMIT && ToLittleEndian(n, 8) == (data + ZEROS)[..8]
    ensures var journal := Encode(Answer(sha256, jobId, data));
            && Decode(journal) == Ok(Answer(sha256, jobId, data))
            && Decode(journal).value.jobId == jobId
            && Decode(journal).value.payloadHash == sha256(data)
            && |Decode(journal).value.result| == 8
            && LittleEndian(Decode(journal).value.result) == Fib(n) % U64_LIMIT
            && (CheckJournal(sha256, journal, other, payload) == None <==>
                other == jobId && sha256(payload) == sha256(data))
            && journal[64..] == Decode(journal).value.result
  {
    var o := Answer(sha256, jobId, data);
    DecodeInvertsEncode(o, Encode(o));
    InputIsUnique(data);
    Pow256Of8();
    LittleEndianOfWord(Fib(n) % U64_LIMIT, 8);
    ContractAgreesWithProver(sha256, Encode(o), other, payload);
  }

  lemma TenthFibonacci()
    ensures Fib(10) == 55
  {
    assert Fib(5) == 5 && Fib(6) == 8;
  }

  lemma OneByte(x: Byte)
    ensures LittleEndian([x] + ZEROS[1..]) == x
    ensures ToLittleEndian(x, 8) == [x] + ZEROS[1..]
  {
    LittleEndianSplit([], [], x);
    ZeroPadding([x], ZEROS[1..]);
    WordOfLittleEndian([x] + ZEROS[1..]);
  }

  /** The example request of README.MD: its payload stands for 10, and its answer is 55. */
  lemma ExampleRequest(sha256: Hash, jobId: JobId, data: Bytes)
    requires data == [10] + ZEROS[1..]
    ensures Answer(sha256, jobId, data).result == [55] + ZEROS[1..]
  {
    assert InputNumber(data) == 10 by {
      assert data[..8] == data;
      OneByte(10);
    }
    assert Fib(InputNumber(data)) % U64_LIMIT == 55 by {
      TenthFibonacci();
    }
    OneByte(55);
  }
}
