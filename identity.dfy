/** The instrument ID as `get_device_id` leaves it in its buffer: the
    reply to "*IDN?" with one trailing newline removed. */
module Identity {
  import opened Wrappers

  /** The reply with a single trailing newline removed, if it has one. */
  function StripNewline(reply: string): (id: string)
    ensures |reply| > 0 && reply[|reply| - 1] == '\n' ==> reply == id + "\n"
    ensures !(|reply| > 0 && reply[|reply| - 1] == '\n') ==> id == reply
  {
    if |reply| > 0 && reply[|reply| - 1] == '\n' then reply[..|reply| - 1] else reply
  }

  /** Stripping undoes appending one newline, and only one: a reply ending
      in two newlines keeps the first. */
  lemma StripNewlineAppended(s: string)
    ensures StripNewline(s + "\n") == s
    ensures StripNewline(s + "\n\n") == s + "\n"
  {
    assert (s + "\n")[..|s|] == s;
    assert (s + "\n\n")[..|s| + 1] == s + "\n";
  }

  // -----------------------------------------------------------------------
  // The C code as written

  /** The C string that starts at the front of `buf`: everything before the
      first NUL character. */
  function CString(buf: string): (s: string)
    ensures |s| <= |buf| && s == buf[..|s|] && '\0' !in s
    ensures |s| < |buf| ==> buf[|s|] == '\0'
  {
    if buf == [] || buf[0] == '\0' then [] else [buf[0]] + CString(buf[1..])
  }

  /** The ID that `regexec` reads after `get_device_id`, as written: the
      reply fills the front of the `id` buffer and `after` is what memory
      holds behind it. An empty reply makes the code read `id[-1]`, which is
      outside the buffer (`None`); a trailing newline is overwritten with a
      NUL; any other reply is left without a terminator, so the string runs
      on into `after`. */
  function IdAsWritten(reply: string, after: string): (id: Option<string>)
    ensures id.None? <==> |reply| == 0
    ensures id.Some? ==> '\0' !in id.value
    ensures id.Some? && '\0' !in reply ==> reply[..|reply| - 1] <= id.value
  {
    if |reply| == 0 then None
    else if reply[|reply| - 1] == '\n' then Some(CString(reply[..|reply| - 1] + "\0" + after))
    else Some(CString(reply + after))
  }

  /** A NUL-free prefix is read through to what follows it. */
  lemma {:induction false} CStringThrough(a: string, b: string)
    requires '\0' !in a
    ensures CString(a + b) == a + CString(b)
    decreases |a|
  {
    if a == [] {
      assert a + b == b;
    } else {
      assert (a + b)[1..] == a[1..] + b;
      CStringThrough(a[1..], b);
    }
  }

  /** For the usual reply, NUL-free and ending in a newline, the code as
      written yields the stripped reply. */
  lemma IdAsWrittenWithNewline(reply: string, after: string)
    requires |reply| > 0 && reply[|reply| - 1] == '\n' && '\0' !in reply
    ensures IdAsWritten(reply, after) == Some(StripNewline(reply))
  {
    var body := reply[..|reply| - 1];
    assert '\0' !in body;
    assert body + "\0" + after == body + ("\0" + after);
    CStringThrough(body, "\0" + after);
  }

  /** Without a trailing newline the ID the code matches against is the
      reply followed by whatever string memory holds after it, not the
      reply itself. */
  lemma IdAsWrittenReadsOn(reply: string, after: string)
    requires |reply| > 0 && reply[|reply| - 1] != '\n' && '\0' !in reply
    ensures IdAsWritten(reply, after) == Some(reply + CString(after))
    ensures CString(after) != [] ==> IdAsWritten(reply, after) != Some(StripNewline(reply))
  {
    CStringThrough(reply, after);
  }

  /** An instance: the reply "RIGOL" with no newline, in a buffer whose
      next bytes are 'X' and a NUL, is matched as "RIGOLX". */
  lemma IdAsWrittenExample(reply: string, after: string)
    requires reply == "RIGOL" && after == "X\0"
    ensures IdAsWritten(reply, after) == Some("RIGOLX")
    ensures StripNewline(reply) == "RIGOL"
  {
    assert CString(after) == "X" by {
      assert after[1..] == "\0";
    }
    IdAsWrittenReadsOn(reply, after);
    assert reply + "X" == "RIGOLX";
  }

  /** An empty reply is not given any ID by the code as written. */
  lemma IdAsWrittenEmptyReply(after: string)
    ensures IdAsWritten([], after).None?
    ensures StripNewline([]) == []
  {
  }
}
