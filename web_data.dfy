/**
 * The response buffer of Find_Me.c: `struct web_data` (lines 22-25), set
 * up in `main` (lines 56-57) and grown by the libcurl write callback
 * `write_mem` (lines 480-500), which appends each chunk it is handed and
 * keeps the buffer NUL-terminated.
 */
module WebBuffer {
  import opened CStrings
  import opened Outcomes

  class WebData {
    /** The heap block, of which the first `size` characters are the text read so far. */
    var buffer: array<char>
    var size: nat

    /** The block holds the text and one more character, the terminator's slot. */
    predicate Valid()
      reads this
    {
      size < buffer.Length
    }

    /** The text received so far. */
    function Contents(): seq<char>
      reads this, buffer
      requires Valid()
    {
      buffer[..size]
    }

    /** The text is followed by its terminator and so can be read as a C string. */
    predicate Terminated()
      reads this, buffer
      requires Valid()
    {
      buffer[size] == NUL
    }

    /** `buffer = malloc(1); size = 0;`: an empty text in a one-character block. */
    constructor ()
      ensures Valid() && Contents() == [] && buffer.Length == 1
    {
      buffer := new char[1];
      size := 0;
    }

    /**
     * write_mem(ptr, size, nmemb, this): `size * nmemb` characters at
     * `ptr` are appended to the text. realloc() moves the text into a block
     * one character longer than the new text; when it fails (`reallocOk`
     * false) the call exits. Returns the number of characters taken.
     */
    method WriteMem(ptr: seq<char>, chunkSize: nat, nmemb: nat, reallocOk: bool) returns (r: Result<nat>)
      requires Valid() && |ptr| == chunkSize * nmemb
      modifies this
      ensures r.Failure? <==> !reallocOk
      ensures r.Failure? ==> r.error == UnableToReallocate
      ensures r.Success? ==> r.value == chunkSize * nmemb
      ensures r.Success? ==> Valid() && fresh(buffer) && Terminated()
      ensures r.Success? ==> buffer.Length == size + 1
      ensures r.Success? ==> size == old(size) + chunkSize * nmemb
      ensures r.Success? ==> Contents() == old(Contents()) + ptr
    {
      var realsize := chunkSize * nmemb;
      if !reallocOk {
        return Failure(UnableToReallocate);
      }
      var n, prev := size, buffer;
      // realloc(): a new block holding the old text.
      var block := new char[n + realsize + 1];
      var i := 0;
      while i < n
        invariant i <= n
        invariant forall k :: 0 <= k < i ==> block[k] == prev[k]
      {
        block[i] := prev[i];
        i := i + 1;
      }
      // memcpy(&block[size], ptr, realsize)
      var j := 0;
      while j < realsize
        invariant j <= realsize
        invariant forall k :: 0 <= k < n ==> block[k] == prev[k]
        invariant forall k :: 0 <= k < j ==> block[n + k] == ptr[k]
      {
        block[n + j] := ptr[j];
        j := j + 1;
      }
      buffer, size := block, n + realsize;
      buffer[size] := NUL;
      assert buffer[..size] == prev[..n] + ptr;
      return Success(realsize);
    }
  }
}
