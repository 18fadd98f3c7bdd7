/** The growable character buffers of a traced state (name, attributes, elements). */
module StringBuffers {

  // ---- How a buffer grows ----

  /** The size after a request: unchanged when it fits, else doubled, or the request when that is larger. */
  function Grow(size: nat, request: nat): nat {
    if request <= size then size
    else if 2 * size < request then request
    else 2 * size
  }

  /** A request to hold `request` characters while `content` of the present ones must survive. */
  datatype Request = Request(content: nat, request: nat)

  function SizeAfter(rs: seq<Request>): nat {
    if rs == [] then 0 else Grow(SizeAfter(rs[..|rs| - 1]), rs[|rs| - 1].request)
  }

  /** Characters moved by the reallocations that the requests cause. */
  function CopiedBy(rs: seq<Request>): nat {
    if rs == [] then 0
    else
      var size, last := SizeAfter(rs[..|rs| - 1]), rs[|rs| - 1];
      CopiedBy(rs[..|rs| - 1]) + if last.request <= size then 0 else last.content
  }

  function Largest(rs: seq<Request>): nat {
    if rs == [] then 0
    else
      var m, last := Largest(rs[..|rs| - 1]), rs[|rs| - 1].request;
      if m < last then last else m
  }

  /** No request asks to keep more characters than the buffer holds when it is made. */
  ghost predicate Sensible(rs: seq<Request>) {
    rs == [] || (Sensible(rs[..|rs| - 1]) && rs[|rs| - 1].content <= SizeAfter(rs[..|rs| - 1]))
  }

  /** Amortised cost: all copying together never exceeds the present size, and the
      size stays below twice the largest request and at least the largest request. */
  lemma {:induction false} AmortisedGrowth(rs: seq<Request>)
    requires Sensible(rs)
    ensures CopiedBy(rs) <= SizeAfter(rs)
    ensures Largest(rs) <= SizeAfter(rs)
    ensures SizeAfter(rs) == 0 || SizeAfter(rs) < 2 * Largest(rs)
  {
    if rs != [] {
      AmortisedGrowth(rs[..|rs| - 1]);
    }
  }

  // ---- The buffer itself ----

  /** Fresh memory: its size is known, its contents are not. */
  method Malloc(size: nat) returns (block: seq<char>)
    ensures |block| == size
  {
    block := seq(size, _ => '?');
  }

  /** A character block together with its content length and its allocated size `|block|`.
      The length is -1 while not even a terminator is stored. */
  class StringBuffer {
    var block: seq<char>
    var length: int
    ghost const place: nat            // tells apart the buffers of one trace
    ghost var requests: seq<Request>  // every size request so far

    ghost predicate Valid()
      reads this
    {
      && -1 <= length
      && (length >= 0 ==> length < |block| && block[length] == '\0')
      && Sensible(requests)
      && |block| == SizeAfter(requests)
    }

    /** What the state's tag will show for this buffer. */
    function Contents(): string
      reads this
    {
      if 0 < length <= |block| then block[..length] else ""
    }

    constructor (ghost place: nat)
      ensures Valid() && Contents() == "" && length == -1 && this.place == place
    {
      this.place := place;
      block, length, requests := [], -1, [];
    }

    method EnsureSpace(content: nat, sizeRequest: nat)
      requires Sensible(requests) && |block| == SizeAfter(requests) && content <= |block|
      modifies this
      ensures length == old(length)
      ensures |block| == Grow(old(|block|), sizeRequest) && sizeRequest <= |block|
      ensures content <= |block| && block[..content] == old(block[..content])
      ensures sizeRequest <= old(|block|) ==> block == old(block)
      ensures requests == old(requests) + [Request(content, sizeRequest)]
      ensures Sensible(requests) && |block| == SizeAfter(requests)
    {
      requests := requests + [Request(content, sizeRequest)];
      assert requests[..|requests| - 1] == old(requests);
      if sizeRequest <= |block| {
        return;
      }
      var newSize := |block| * 2;
      if newSize < sizeRequest {
        newSize := sizeRequest;
      }
      var temp := Malloc(newSize);
      if content > 0 {
        temp := block[..content] + temp[content..];
      }
      block := temp;
    }

    /** Replaces the contents; nothing of the old ones is preserved while growing. */
    method Set(s: string)
      requires Valid()
      modifies this
      ensures Valid() && Contents() == s && length == |s|
    {
      length := -1;
      EnsureSpace(0, |s| + 1);
      block := s + ['\0'] + block[|s| + 1..];
      length := |s|;
    }

    /** Forgets the contents but keeps the memory. */
    method Clear()
      requires Valid()
      modifies this
      ensures Valid() && Contents() == "" && block == old(block)
    {
      length := -1;
    }

    method Append(s: string)
      requires Valid()
      modifies this
      ensures Valid() && Contents() == old(Contents()) + s
      ensures length == |Contents()|
    {
      if length < 0 {
        length := 0;
      }
      ghost var before := block[..length];
      EnsureSpace(length, length + |s| + 1);
      block := block[..length] + s + ['\0'] + block[length + |s| + 1..];
      length := length + |s|;
      assert block[..length] == before + s;
    }

    /** Over the whole life of the buffer the copying it has done is bounded by its size. */
    lemma {:induction false} CopyingIsAmortised()
      requires Valid()
      ensures CopiedBy(requests) <= |block|
      ensures |block| == 0 || |block| < 2 * Largest(requests)
      ensures |Contents()| < |block| || |Contents()| == 0
    {
      AmortisedGrowth(requests);
    }
  }
}
