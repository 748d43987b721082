/** Strings kept in the fixed 64-character buffers of a phase record
    (title, stat keys and stat values), which are filled with strncpy.
    One `char` here stands for one C `char`, that is, one byte of the
    encoded string. */
module CString {
  const STR_BUFFER_SIZE: nat := 64
  const NUL: char := '\0'

  /** The first at most `cap` characters of `s` before its first NUL:
      what strncpy copies into a buffer of `cap` characters. */
  function Copied(s: string, cap: nat): (r: string)
    ensures |r| <= cap && r <= s
    ensures NUL !in r
    ensures |r| == cap || |r| == |s| || s[|r|] == NUL
    decreases cap
  {
    if cap == 0 || s == [] || s[0] == NUL then []
    else [s[0]] + Copied(s[1..], cap - 1)
  }

  /** The string a record stores for `s`: at most its first 64 characters,
      cut at an embedded NUL. */
  function Stored(s: string): (r: string)
    ensures |r| <= STR_BUFFER_SIZE && r <= s && NUL !in r
    ensures NUL !in s && |s| <= STR_BUFFER_SIZE ==> r == s
  {
    CopiedWhole(s, STR_BUFFER_SIZE);
    Copied(s, STR_BUFFER_SIZE)
  }

  /** A string without NUL that fits the capacity is copied whole. */
  lemma {:induction false} CopiedWhole(s: string, cap: nat)
    ensures NUL !in s && |s| <= cap ==> Copied(s, cap) == s
    decreases cap
  {
    if NUL !in s && |s| <= cap && cap > 0 && s != [] {
      CopiedWhole(s[1..], cap - 1);
    }
  }

  /** Storing an already stored string changes nothing. */
  lemma StoredIdempotent(s: string)
    ensures Stored(Stored(s)) == Stored(s)
  {
    var r := Stored(s);
    assert NUL !in r && |r| <= STR_BUFFER_SIZE;
    CopiedWhole(r, STR_BUFFER_SIZE);
  }

  // --- The buffers exactly as strncpy leaves them ---

  /** The 64 buffer characters after `strncpy(buf, s, 64)`: the copied
      characters followed by NUL padding up to the buffer size. */
  function StrncpyBuffer(s: string): (buf: seq<char>)
    ensures |buf| == STR_BUFFER_SIZE
    ensures buf[..|Copied(s, STR_BUFFER_SIZE)|] == Copied(s, STR_BUFFER_SIZE)
    ensures forall k :: |Copied(s, STR_BUFFER_SIZE)| <= k < STR_BUFFER_SIZE ==> buf[k] == NUL
  {
    var c := Copied(s, STR_BUFFER_SIZE);
    c + seq(STR_BUFFER_SIZE - |c|, _ => NUL)
  }

  /** `std::string(buf)`: the characters of a NUL-terminated buffer before
      the terminator. Defined only for a buffer that holds a NUL; the read
      runs past the buffer otherwise. */
  function CRead(buf: seq<char>): (r: string)
    requires NUL in buf
    ensures r <= buf && |r| < |buf| && buf[|r|] == NUL && NUL !in r
  {
    if buf[0] == NUL then [] else [buf[0]] + CRead(buf[1..])
  }

  /** A 64-character input without NUL leaves the buffer without a
      terminator, so reading it back with CRead is undefined. */
  lemma {:induction false} LongInputUnterminated(s: string)
    requires |s| >= STR_BUFFER_SIZE && NUL !in s[..STR_BUFFER_SIZE]
    ensures NUL !in StrncpyBuffer(s)
  {
    var c := Copied(s, STR_BUFFER_SIZE);
    assert StrncpyBuffer(s) == c;
  }

  /** A concrete input that shows it: sixty-four 'a's. */
  lemma SixtyFourCharsUnterminated()
    ensures NUL !in StrncpyBuffer(seq(64, _ => 'a'))
  {
    var s := seq(64, _ => 'a');
    assert s[..STR_BUFFER_SIZE] == s;
    LongInputUnterminated(s);
  }

  /** The read that the buffer size calls for: the characters before the
      first NUL, and never more than the buffer holds. */
  function BoundedRead(buf: seq<char>): (r: string)
    ensures r <= buf && NUL !in r
    ensures |r| == |buf| || buf[|r|] == NUL
  {
    if buf == [] || buf[0] == NUL then [] else [buf[0]] + BoundedRead(buf[1..])
  }

  /** On a terminated buffer the bounded read is the C read. */
  lemma {:induction false} BoundedReadAgrees(buf: seq<char>)
    requires NUL in buf
    ensures BoundedRead(buf) == CRead(buf)
  {
    if buf[0] != NUL {
      BoundedReadAgrees(buf[1..]);
    }
  }

  /** Reading a buffer back with the bounded read gives Stored: at most the
      first 64 characters, for every input. */
  lemma BoundedReadOfBuffer(s: string)
    ensures BoundedRead(StrncpyBuffer(s)) == Stored(s)
  {
    var c := Copied(s, STR_BUFFER_SIZE);
    var buf := StrncpyBuffer(s);
    var r := BoundedRead(buf);
    PrefixReadsSame(buf, c);
  }

  /** The bounded read of a buffer that starts with a NUL-free `c` followed
      by a NUL, or is exactly `c`, is `c`. */
  lemma {:induction false} PrefixReadsSame(buf: seq<char>, c: string)
    requires c <= buf && NUL !in c
    requires |c| == |buf| || buf[|c|] == NUL
    ensures BoundedRead(buf) == c
  {
    if c != [] {
      PrefixReadsSame(buf[1..], c[1..]);
    }
  }
}
