/**
 * The mode string of the file type (objects/fileobject.go): `setModeBits`
 * turns the characters 'r', 'w', 'a' and 't' into the flag word passed to
 * the operating system's open call. Opening the file itself is I/O and is
 * not part of this model.
 *
 * The Go loop walks the mode string byte by byte and formats the offending
 * byte with '%c'. Here a mode is a sequence of characters. The two agree on
 * ASCII text. For a non-ASCII byte, Go prints the byte's Latin-1 rune
 * instead of the character. Only the error message can differ, never
 * whether the mode is accepted, because every mode character is ASCII.
 */
module FileModes {
  import opened Common

  /** Linux's values of Go's `os` open flags. */
  const O_WRONLY: bv32 := 0x1
  const O_RDWR: bv32 := 0x2
  const O_CREATE: bv32 := 0x40
  const O_TRUNC: bv32 := 0x200
  const O_APPEND: bv32 := 0x400

  predicate ModeChar(c: char)
  {
    c == 'r' || c == 'w' || c == 'a' || c == 't'
  }

  /** The message set for a character outside "rwat". */
  function ModeError(c: char): string
  {
    "unrecognized file mode char '" + [c] + "'"
  }

  /** The index of the first character from `i` on that is not a mode character, or `|mode|`. */
  function FirstBad(mode: string, i: nat): (r: nat)
    requires i <= |mode|
    ensures i <= r <= |mode|
    ensures r < |mode| ==> !ModeChar(mode[r])
    ensures forall j :: i <= j < r ==> ModeChar(mode[j])
    decreases |mode| - i
  {
    if i == |mode| then |mode|
    else if !ModeChar(mode[i]) then i
    else FirstBad(mode, i + 1)
  }

  /** The access bits: read and write together, write only, or read only (zero). */
  function Access(mode: string): bv32
  {
    if 'w' in mode then (if 'r' in mode then O_RDWR else O_WRONLY) else 0
  }

  /**
   * The flag word a mode string stands for, independent of the order of its
   * characters: the first character outside "rwat" is an error; otherwise the
   * access bits, creation whenever 'w' is present, and append and truncate
   * when 'a' and 't' are.
   */
  function ModeBits(mode: string): Result<bv32>
  {
    var b := FirstBad(mode, 0);
    if b < |mode| then Failure(ModeError(mode[b]))
    else Ok(Access(mode) | (if 'w' in mode then O_CREATE else 0)
            | (if 'a' in mode then O_APPEND else 0) | (if 't' in mode then O_TRUNC else 0))
  }

  /** The flags collected by `setModeBits`'s loop after a prefix of the mode. */
  function LoopFlags(seen: string): bv32
  {
    (if 'w' in seen then O_WRONLY else 0) | (if 'a' in seen then O_APPEND else 0) | (if 't' in seen then O_TRUNC else 0)
  }

  /**
   * `setModeBits`: one pass over the characters, or-ing in write, append and
   * truncate and noting 'r' and 'w'; then read-and-write replaces write-only
   * and write adds creation. The -1 return with an error message is the
   * `Failure` here.
   */
  method SetModeBits(mode: string) returns (r: Result<bv32>)
    ensures r == ModeBits(mode)
  {
    var flag: bv32 := 0;
    var rfound, wfound := false, false;
    var i := 0;
    while i < |mode|
      invariant 0 <= i <= |mode|
      invariant forall j :: 0 <= j < i ==> ModeChar(mode[j])
      invariant rfound == ('r' in mode[..i]) && wfound == ('w' in mode[..i])
      invariant flag == LoopFlags(mode[..i])
    {
      var ch := mode[i];
      assert mode[..i + 1] == mode[..i] + [ch];
      if ch == 'r' {
        rfound := true;
      } else if ch == 'w' {
        flag := flag | O_WRONLY;
        wfound := true;
      } else if ch == 'a' {
        flag := flag | O_APPEND;
      } else if ch == 't' {
        flag := flag | O_TRUNC;
      } else {
        FirstBadIs(mode, i);
        return Failure(ModeError(ch));
      }
      i := i + 1;
    }
    assert mode[..i] == mode;
    FirstBadIs(mode, |mode|);
    if rfound && wfound {
      flag := flag & !O_WRONLY;
      flag := flag | O_RDWR;
    }
    if wfound {
      flag := flag | O_CREATE;
    }
    FinishFlags(mode, rfound, wfound, flag, LoopFlags(mode));
    return Ok(flag);
  }

  /** `FirstBad` from the start is the one index where every earlier character is good and this one is not. */
  lemma FirstBadIs(mode: string, i: nat)
    requires i <= |mode| && (i < |mode| ==> !ModeChar(mode[i]))
    requires forall j :: 0 <= j < i ==> ModeChar(mode[j])
    ensures FirstBad(mode, 0) == i
  {
  }

  /** The two adjustments after the loop turn the loop's flags into `ModeBits`. */
  lemma FinishFlags(mode: string, rfound: bool, wfound: bool, flag: bv32, loop: bv32)
    requires rfound == ('r' in mode) && wfound == ('w' in mode) && loop == LoopFlags(mode)
    requires flag == (if wfound then O_CREATE else 0) | (if rfound && wfound then (loop & !O_WRONLY) | O_RDWR else loop)
    ensures FirstBad(mode, 0) == |mode| ==> ModeBits(mode) == Ok(flag)
  {
    FlagAlgebra(rfound, wfound, 'a' in mode, 't' in mode);
  }

  /** The flag identity behind `FinishFlags`. */
  lemma FlagAlgebra(r: bool, w: bool, a: bool, t: bool)
    ensures var loop := (if w then O_WRONLY else 0) | (if a then O_APPEND else 0) | (if t then O_TRUNC else 0);
      (if w then O_CREATE else 0) | (if r && w then (loop & !O_WRONLY) | O_RDWR else loop)
      == (if w then (if r then O_RDWR else O_WRONLY) else 0) | (if w then O_CREATE else 0)
         | (if a then O_APPEND else 0) | (if t then O_TRUNC else 0)
  {
  }

  /** A mode is refused exactly when one of its characters is outside "rwat", and the message names the first such. */
  lemma ModeRefused(mode: string)
    ensures ModeBits(mode).Failure? <==> exists j :: 0 <= j < |mode| && !ModeChar(mode[j])
    ensures ModeBits(mode).Failure? ==>
      exists j :: (0 <= j < |mode| && !ModeChar(mode[j])
                   && ModeBits(mode).msg == ModeError(mode[j]) && forall i :: 0 <= i < j ==> ModeChar(mode[i]))
  {
    var b := FirstBad(mode, 0);
    if b == |mode| {
      assert forall j :: 0 <= j < |mode| ==> ModeChar(mode[j]);
    } else {
      assert !ModeChar(mode[b]);
    }
  }

  /**
   * Each flag of an accepted mode follows one character: creation and the
   * access mode from 'w' (with 'r' making it read-write), append from 'a',
   * truncate from 't'; read-write and write-only never come together.
   */
  lemma ModeFlags(mode: string)
    requires ModeBits(mode).Ok?
    ensures var f := ModeBits(mode).value;
      && (f & O_CREATE != 0 <==> 'w' in mode)
      && (f & O_APPEND != 0 <==> 'a' in mode)
      && (f & O_TRUNC != 0 <==> 't' in mode)
      && (f & O_RDWR != 0 <==> 'w' in mode && 'r' in mode)
      && (f & O_WRONLY != 0 <==> 'w' in mode && 'r' !in mode)
  {
  }

  /**
   * An accepted mode depends only on which characters it holds, not on
   * their order or repetition: any mode with the same characters is
   * accepted with the same flags.
   */
  lemma ModeIsCharacterSet(m1: string, m2: string)
    requires forall c :: c in m1 <==> c in m2
    requires ModeBits(m1).Ok?
    ensures ModeBits(m2) == ModeBits(m1)
  {
    assert FirstBad(m1, 0) == |m1|;
    forall j | 0 <= j < |m2|
      ensures ModeChar(m2[j])
    {
      assert m2[j] in m1;
    }
    FirstBadIs(m2, |m2|);
  }

  /** The default mode "r" opens read-only with no other flag; "w" creates for writing; "rw" creates for reading and writing. */
  lemma CommonModes()
    ensures ModeBits("r") == Ok(0)
    ensures ModeBits("w") == Ok(O_WRONLY | O_CREATE)
    ensures ModeBits("rw") == Ok(O_RDWR | O_CREATE)
    ensures ModeBits("wa") == Ok(O_WRONLY | O_CREATE | O_APPEND)
    ensures ModeBits("x") == Failure("unrecognized file mode char 'x'")
  {
    assert FirstBad("r", 0) == 1;
    assert FirstBad("w", 0) == 1;
    assert FirstBad("rw", 0) == 2;
    assert FirstBad("wa", 0) == 2;
    assert FirstBad("x", 0) == 0;
  }
}
