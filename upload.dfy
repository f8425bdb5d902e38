/**
 * The chunked upload of `upload`: the file is read 1 MiB at a time and each
 * piece is posted to the start-scan endpoint with its fragment number and
 * byte offset.  Fragments are numbered 0, 1, 2, ...; the piece whose read
 * reaches the end of the file is sent with the number -1 and ends the loop.
 */
module Upload {
  import opened Wrappers
  import opened Errors
  import opened Text
  import opened Endpoints
  import opened Selection

  /** `chunk_size`: 1 MiB. */
  const ChunkSize: nat := 1024 * 1024

  /** One `upload_chunk` call: fragment number (-1 for the last), byte offset, bytes, start date. */
  datatype Fragment = Fragment(fragNo: int, offset: int, data: seq<bv8>, startDate: string)

  /** What the client reads from a start-scan reply: the scan id it reports after the last fragment. */
  datatype Reply = Reply(scanId: Option<string>)

  function Min(a: int, b: int): int { if a < b then a else b }

  /** How many fragments a file of `n` bytes is sent in: one for an empty file, else ceil(n / 1 MiB). */
  function FragmentCount(n: nat): (k: nat)
    ensures k >= 1
    ensures n == 0 ==> k == 1
    ensures n > 0 ==> (k - 1) * ChunkSize < n <= k * ChunkSize
  {
    if n == 0 then 1 else (n + ChunkSize - 1) / ChunkSize
  }

  /** The bytes of fragment `i` of a file: the `i`-th 1 MiB window, cut short at the end. */
  function Piece(file: seq<bv8>, i: nat): seq<bv8>
    requires i * ChunkSize <= |file|
  {
    file[i * ChunkSize .. Min((i + 1) * ChunkSize, |file|)]
  }

  /** The fragments `upload` sends for `file`, in order, when every post succeeds. */
  function Plan(file: seq<bv8>, startDate: string): seq<Fragment>
  {
    var k := FragmentCount(|file|);
    seq(k, i requires 0 <= i < k =>
      Fragment(if i == k - 1 then -1 else i, i * ChunkSize, Piece(file, i), startDate))
  }

  /** The request `upload_chunk` posts for one fragment. */
  function ChunkRequest(c: Client, t: Token, p: ScanParams, a: Assessment, f: Fragment): Request
  {
    Request(Post, StartScanUrl(c.baseUrl, p, a.id, a.frequency, a.remediation, f.fragNo, f.offset, f.startDate),
            UploadHeaders(t), Bytes(f.data))
  }

  /**
   * Whether the start-scan endpoint answers a fragment with a reply the client
   * can parse.  `upload_chunk` never looks at the HTTP status of that reply,
   * so a rejected fragment whose reply body is JSON counts as sent.
   */
  predicate ReplyParses(endpoint: Request -> Option<Reply>, c: Client, t: Token, p: ScanParams, a: Assessment, f: Fragment)
  {
    endpoint(ChunkRequest(c, t, p, a, f)).Some?
  }

  /**
   * `upload`: reads `file` 1 MiB at a time from a read position, posts each
   * piece, and stops after the piece whose read reaches the end of the file.
   * `endpoint` stands for the start-scan endpoint; `None` is a post that
   * raised or a reply that is not JSON, which `upload` turns into an upload
   * error.  `sent` is the fragments posted, in order.
   */
  method UploadFile(c: Client, t: Token, p: ScanParams, a: Assessment, file: seq<bv8>, startDate: string,
                    endpoint: Request -> Option<Reply>)
    returns (sent: seq<Fragment>, outcome: Result<Reply, Error>)
    ensures 1 <= |sent| <= |Plan(file, startDate)| && sent == Plan(file, startDate)[..|sent|]
    ensures forall i :: 0 <= i < |sent| - 1 ==> ReplyParses(endpoint, c, t, p, a, sent[i])
    ensures outcome.Success? <==> forall i :: 0 <= i < |Plan(file, startDate)| ==> ReplyParses(endpoint, c, t, p, a, Plan(file, startDate)[i])
    ensures outcome.Success? ==>
      sent == Plan(file, startDate) && Some(outcome.value) == endpoint(ChunkRequest(c, t, p, a, sent[|sent| - 1]))
    ensures outcome.Failure? ==> outcome.error == UploadError && !ReplyParses(endpoint, c, t, p, a, sent[|sent| - 1])
  {
    ghost var plan := Plan(file, startDate);
    ghost var k := FragmentCount(|file|);
    var pos := 0;
    var chunk := 0;
    sent := [];
    while true
      invariant pos == chunk * ChunkSize
      invariant pos <= |file| && (chunk > 0 ==> pos < |file|)
      invariant chunk < k
      invariant sent == plan[..chunk]
      invariant forall i :: 0 <= i < |sent| ==> ReplyParses(endpoint, c, t, p, a, sent[i])
      decreases |file| - pos
    {
      // file.read(chunk_size): the bytes up to the next 1 MiB boundary or the end of the file
      var next := Min(pos + ChunkSize, |file|);
      var data := file[pos..next];
      pos := next;
      var offset := chunk * ChunkSize;
      assert data == Piece(file, chunk);
      if pos == |file| {
        // file.eof?: this piece is the last one
        assert chunk == k - 1;
        var frag := Fragment(-1, offset, data, startDate);
        assert frag == plan[chunk];
        assert plan[..chunk + 1] == plan;
        sent := sent + [frag];
        var reply := endpoint(ChunkRequest(c, t, p, a, frag));
        if reply.None? {
          return sent, Failure(UploadError);
        }
        return sent, Success(reply.value);
      } else {
        var frag := Fragment(chunk, offset, data, startDate);
        assert frag == plan[chunk];
        assert plan[..chunk + 1] == plan[..chunk] + [frag];
        sent := sent + [frag];
        var reply := endpoint(ChunkRequest(c, t, p, a, frag));
        if reply.None? {
          return sent, Failure(UploadError);
        }
      }
      chunk := chunk + 1;
    }
  }

  /**
   * A fragment is posted as its raw bytes, with the JSON `Accept` header, the
   * token in `Authorization` and the octet-stream content type, to the
   * start-scan URL that carries its fragment number and offset.
   */
  lemma ChunkRequestFields(c: Client, t: Token, p: ScanParams, a: Assessment, f: Fragment)
    ensures var r := ChunkRequest(c, t, p, a, f);
      && r.verb == Post && r.body == Bytes(f.data)
      && r.url == StartScanUrl(c.baseUrl, p, a.id, a.frequency, a.remediation, f.fragNo, f.offset, f.startDate)
      && Keys(r.headers) == ["Accept", "Authorization", "Content-Type"]
      && Lookup(r.headers, "Accept") == Some("application/json")
      && Lookup(r.headers, "Authorization") == Some(t.tokenType + " " + t.accessToken)
      && Lookup(r.headers, "Content-Type") == Some("application/octet-stream")
  {
    var hs := ChunkRequest(c, t, p, a, f).headers;
    assert hs == [("Accept", "application/json"), ("Authorization", AuthorizationValue(t)),
                  ("Content-Type", "application/octet-stream")];
    assert Lookup(hs[2..], "Content-Type") == Some("application/octet-stream");
    assert Lookup(hs[1..], "Content-Type") == Some("application/octet-stream");
    assert Lookup(hs[1..], "Authorization") == Some(AuthorizationValue(t));
  }

  /** The bytes of the fragments, concatenated in order. */
  function Concat(fs: seq<Fragment>): seq<bv8>
  {
    if fs == [] then [] else Concat(fs[..|fs| - 1]) + fs[|fs| - 1].data
  }

  lemma {:induction false} PlanPrefixConcat(file: seq<bv8>, startDate: string, j: nat)
    requires j <= FragmentCount(|file|)
    ensures Concat(Plan(file, startDate)[..j]) == file[..Min(j * ChunkSize, |file|)]
  {
    if j > 0 {
      var plan := Plan(file, startDate);
      PlanPrefixConcat(file, startDate, j - 1);
      assert plan[..j][..j - 1] == plan[..j - 1];
      assert file[..Min(j * ChunkSize, |file|)]
          == file[..Min((j - 1) * ChunkSize, |file|)] + Piece(file, j - 1);
    }
  }

  /** Concatenating the data of all fragments, in order, gives back the file. */
  lemma PlanReassembles(file: seq<bv8>, startDate: string)
    ensures Concat(Plan(file, startDate)) == file
  {
    var plan := Plan(file, startDate);
    PlanPrefixConcat(file, startDate, |plan|);
    assert plan[..|plan|] == plan;
  }

  /**
   * Fragments are numbered 0, 1, ... in order and the last one, and only the
   * last one, carries -1; every fragment has the same start date.
   */
  lemma PlanNumbering(file: seq<bv8>, startDate: string)
    ensures var plan := Plan(file, startDate);
      && |plan| >= 1
      && (forall i :: 0 <= i < |plan| - 1 ==> plan[i].fragNo == i)
      && plan[|plan| - 1].fragNo == -1
      && (forall i :: 0 <= i < |plan| ==> (plan[i].fragNo == -1 <==> i == |plan| - 1))
      && (forall i :: 0 <= i < |plan| ==> plan[i].startDate == startDate)
  {
  }

  /** A file of `n > 0` bytes goes in ceil(n / 1 MiB) fragments. */
  lemma PlanLength(file: seq<bv8>, startDate: string)
    requires |file| > 0
    ensures var k := |Plan(file, startDate)|; (k - 1) * ChunkSize < |file| <= k * ChunkSize
  {
  }

  /**
   * Every fragment but the last holds exactly 1 MiB; the last holds what is
   * left, between one byte and 1 MiB, unless the file is empty.
   */
  lemma PlanSizes(file: seq<bv8>, startDate: string)
    ensures var plan := Plan(file, startDate);
      && (forall i :: 0 <= i < |plan| - 1 ==> |plan[i].data| == ChunkSize)
      && (|file| > 0 ==> 0 < |plan[|plan| - 1].data| <= ChunkSize)
      && (|file| == 0 ==> plan[|plan| - 1].data == [])
  {
  }

  /** The offset of each fragment, the last included, is the number of bytes sent before it. */
  lemma PlanOffsets(file: seq<bv8>, startDate: string)
    ensures var plan := Plan(file, startDate);
      forall i :: 0 <= i < |plan| ==> plan[i].offset == i * ChunkSize == |Concat(plan[..i])|
  {
    var plan := Plan(file, startDate);
    forall i | 0 <= i < |plan| ensures plan[i].offset == i * ChunkSize == |Concat(plan[..i])| {
      PlanPrefixConcat(file, startDate, i);
      assert i * ChunkSize <= |file|;
      assert Min(i * ChunkSize, |file|) == i * ChunkSize;
    }
  }

  /** An empty file is sent as one empty fragment numbered -1 at offset 0. */
  lemma EmptyFilePlan(startDate: string)
    ensures Plan([], startDate) == [Fragment(-1, 0, [], startDate)]
  {
  }

  /** A file of at most 1 MiB is sent whole, as one fragment numbered -1 at offset 0. */
  lemma SmallFilePlan(file: seq<bv8>, startDate: string)
    requires 0 < |file| <= ChunkSize
    ensures Plan(file, startDate) == [Fragment(-1, 0, file, startDate)]
  {
    assert Piece(file, 0) == file;
  }

  /**
   * A file of exactly `m` MiB is sent in exactly `m` fragments; the `m`-th
   * holds a full 1 MiB and is the one numbered -1, with no empty fragment after it.
   */
  lemma ExactMultiplePlan(file: seq<bv8>, startDate: string, m: nat)
    requires m >= 1 && |file| == m * ChunkSize
    ensures var plan := Plan(file, startDate);
      && |plan| == m
      && plan[m - 1] == Fragment(-1, (m - 1) * ChunkSize, file[(m - 1) * ChunkSize..], startDate)
      && |plan[m - 1].data| == ChunkSize
  {
  }
}
