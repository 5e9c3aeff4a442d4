/** The file actuator's bounded read. */
module FileRead {
  import opened Common
  import opened Errors
  import opened FileTree
  import opened Workspace
  import opened Disk
  import opened FileActuator
  import opened Utf8

  datatype Reading = Reading(content: seq<byte>, bytesReturned: nat, totalBytes: nat, truncated: bool)

  /** `read_exact`: fills the buffer from the start of the file. */
  method ReadExact(bytes: seq<byte>, buf: array<byte>)
    requires buf.Length <= |bytes|
    modifies buf
    ensures buf[..] == bytes[..buf.Length]
  {
    var i := 0;
    while i < buf.Length
      invariant 0 <= i <= buf.Length && buf[..i] == bytes[..i]
    {
      buf[i] := bytes[i];
      i := i + 1;
    }
  }

  /** `file_read`: at most `max` octets from the start, as text or not at all. */
  method FileRead(t: Tree, target: Path, max: nat) returns (r: Result<Reading, AmaError>)
    requires WellFormed(t) && PlainPath(target)
    ensures !Settled(t, target) || (target in t && t[target] == Dir) ==> r == Err(InvalidTarget())
    ensures Settled(t, target) && (target !in t || t[target].Link?) ==> r.Err? && r.error.ServiceUnavailable?
    ensures Settled(t, target) && target in t && t[target].File? ==>
              var bytes := t[target].bytes;
              var cut := if |bytes| <= max then |bytes| else max;
              r == if WellFormedText(bytes[..cut]) then Ok(Reading(bytes[..cut], cut, |bytes|, |bytes| > max))
                   else Err(Validation(ENCODING_ERROR, Text([])))
  {
    var clean := VerifyNoSymlinks(t, target);
    if !clean {
      return Err(InvalidTarget());
    }
    RegularWhenSettled(t, target);
    assert target[..|target|] == target;
    if !Exists(t, target) {
      if target in t && !t[target].Link? {
        LocatePhysical(t, target);
      }
      return Err(ServiceUnavailable(Text([])));
    }
    if !IsRegular(t, target) {
      return Err(InvalidTarget());
    }
    var bytes := t[target].bytes;
    var readSize := if |bytes| <= max then |bytes| else max;
    var buf := new byte[readSize](_ => 0);
    ReadExact(bytes, buf);
    var content := buf[..];
    if !WellFormedText(content) {
      return Err(Validation(ENCODING_ERROR, Text([])));
    }
    r := Ok(Reading(content, |content|, |bytes|, |bytes| > max));
  }

  lemma PhysicalIsSettled(t: Tree, p: Path)
    requires WellFormed(t) && p in t && !t[p].Link?
    ensures Settled(t, p)
  {
    forall n | 0 <= n <= |p| ensures p[..n] in t && !t[p[..n]].Link? {
      if n < |p| {
        PrefixIsDir(t, p, n);
      } else {
        assert p[..n] == p;
      }
    }
  }

  /**
   * Round trip. What was written is read back: whole when it fits, otherwise its first `max` octets,
   * marked truncated, when the cut falls between characters, and an encoding error when it does not.
   */
  method WriteThenRead(disk: Volume, target: Path, content: seq<byte>, id: string, fault: Fault, max: nat)
    returns (w: Result<nat, AmaError>, r: Result<Reading, AmaError>)
    requires disk.Valid() && PlainPath(target) && WellFormedText(content)
    requires target != [] ==> TempPath(target, id) !in disk.tree
    modifies disk
    ensures w.Ok? <==> Writable(old(disk.tree), target) && !Strikes(fault, content)
    ensures w.Ok? && |content| <= max ==> r == Ok(Reading(content, |content|, |content|, false))
    ensures w.Ok? && |content| > max ==>
              r == if Tail(content[max]) then Err(Validation(ENCODING_ERROR, Text([])))
                   else Ok(Reading(content[..max], max, |content|, true))
  {
    w := FileWrite(disk, target, content, id, fault);
    if w.Ok? {
      PhysicalIsSettled(disk.tree, target);
      CutIsWellFormed(content, if |content| <= max then |content| else max);
      assert content[..|content|] == content;
    }
    r := FileRead(disk.tree, target, max);
  }
}
