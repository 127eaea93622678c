/** The model download: resumable, verified, and installed by one rename. */
module Download {
  import opened Domain
  import opened ContentRange

  const DISK_RESERVE_BYTES := 536_870_912
  const BUFFER_BYTES := 1_048_576

  datatype ModelError = DownloadFailed | ModelFileInvalid | DownloadCanceled | InsufficientDisk | DownloadInterrupted

  datatype Outcome<+T> = Success(value: T) | Failure(error: ModelError)

  /** What a path holds: a regular file, or something that is not one. */
  datatype Node = Regular(bytes: Bytes) | NotAFile

  datatype ModelFile = ModelFile(name: string, size: nat, digest: Digest)

  /** The bytes a reply delivers before its stream ends, and whether it ends by
      failing. */
  datatype Response = Response(status: nat, contentRange: Option<string>, body: Bytes, breaks: bool)

  /** The file a person picked to install from. */
  datatype Selected = InstalledFile | PartialFile | Elsewhere(node: Option<Node>)

  predicate SafeInstallName(name: string) {
    name != "" && '/' !in name && '\\' !in name && name != "." && name != ".."
  }

  predicate Matches(node: Option<Node>, expected: ModelFile) {
    node.Some? && node.value.Regular? && |node.value.bytes| == expected.size
    && Sha256(node.value.bytes) == expected.digest
  }

  // ---- the server -----------------------------------------------------------

  /** A full reply with some of the served file, or a partial one that truly says
      which part of it follows. Any other status may come with anything. */
  ghost predicate Truthful(served: Bytes, r: Response) {
    && (r.status == 200 ==> r.body <= served)
    && (r.status == 206 ==>
          exists first: nat, last: nat :: TruthfulRange(served, r, first, last))
  }

  ghost predicate TruthfulRange(served: Bytes, r: Response, first: nat, last: nat) {
    && first <= last < |served|
    && r.contentRange == Some(RangeHeader(first, last, |served|))
    && r.body <= served[first..last + 1]
  }

  /** The whole of what was asked for, or the whole file. */
  ghost predicate Prompt(served: Bytes, request: Option<nat>, r: Response) {
    && !r.breaks
    && (|| (r.status == 200 && r.body == served)
        || (&& r.status == 206
            && var from := if request.Some? then request.value else 0;
            && from < |served| && TruthfulRange(served, r, from, |served| - 1) && r.body == served[from..]))
  }

  /** What resuming relies on: nothing is there yet, or the start of the served file. */
  predicate Resumable(partial: Option<Node>, served: Bytes) {
    partial.None? || (partial.value.Regular? && partial.value.bytes <= served)
  }

  /** What the path of the installed file and that of the partial one hold. */
  datatype Directory = Directory(final: Option<Node>, partial: Option<Node>)

  /** What there was of the file, if it was not yet whole, is still there, at the start
      of what there is now, or has become the installed file. */
  predicate Keeps(before: Option<Node>, after: Directory, expected: ModelFile) {
    before.Some? && before.value.Regular? && |before.value.bytes| < expected.size ==>
      if after.partial.Some? then after.partial.value.Regular? && before.value.bytes <= after.partial.value.bytes
      else Matches(after.final, expected)
  }

  /** What there was of the file is at the start of what there is now. */
  predicate Grows(before: Option<Node>, after: Option<Node>, expected: ModelFile) {
    before.Some? && before.value.Regular? && |before.value.bytes| < expected.size ==>
      after.Some? && after.value.Regular? && before.value.bytes <= after.value.bytes
  }

  /** The partial file is as long as the served one, or the expected file is installed. */
  predicate IsWhole(files: Directory, expected: ModelFile) {
    || Matches(files.final, expected)
    || (files.partial.Some? && files.partial.value.Regular? && |files.partial.value.bytes| >= expected.size)
  }

  /** One installation directory, one server, one attempt after another. */
  class Downloader {
    const expected: ModelFile
    ghost const served: Bytes
    /** The server tells the truth, and what it serves is the expected file. */
    ghost const honest: bool
    /** The server also answers, and with all that was asked for. */
    ghost const prompt: bool
    /** Nothing fails, nobody cancels, and the disk has room. */
    const calm: bool
    ghost const steady: bool := calm && prompt
    var final: Option<Node>
    var partial: Option<Node>
    var canceled: bool

    constructor (expected: ModelFile, ghost served: Bytes, ghost honest: bool, ghost prompt: bool, calm: bool,
                 final: Option<Node>, partial: Option<Node>)
      ensures this.expected == expected && this.served == served && this.honest == honest
      ensures this.prompt == prompt && this.calm == calm
      ensures this.final == final && this.partial == partial && !canceled
    {
      this.expected, this.served, this.honest, this.prompt, this.calm := expected, served, honest, prompt, calm;
      this.final, this.partial, canceled := final, partial, false;
    }

    /** The assumptions in force are consistent. */
    ghost predicate Valid()
      reads this
    {
      && expected.size < U64
      && (honest ==> |served| == expected.size && Sha256(served) == expected.digest)
      && (prompt ==> honest)
      && (calm ==> !canceled && expected.size + DISK_RESERVE_BYTES < U64)
    }

    // ---- what can go wrong --------------------------------------------------

    method Fails() returns (fails: bool)
      ensures calm ==> !fails
    {
      fails := *;
      if calm { fails := false; }
    }

    /** Cancelling is for good. */
    method IsCanceled() returns (now: bool)
      requires Valid()
      modifies `canceled
      ensures Valid() && now == canceled && (old(canceled) ==> canceled)
      ensures calm ==> !now
    {
      if !calm && !canceled { canceled := *; }
      now := canceled;
    }

    method AvailableBytes() returns (r: Outcome<nat>)
      requires Valid()
      ensures r.Success? ==> r.value < 0x1_0000_0000_0000_0000
      ensures r.Failure? ==> r.error.DownloadFailed?
      ensures calm ==> r.Success? && r.value >= expected.size + DISK_RESERVE_BYTES
    {
      var fails := Fails();
      if fails { return Failure(DownloadFailed); }
      var bytes: nat := *;
      if bytes >= U64 { bytes := U64 - 1; }
      if calm && bytes < expected.size + DISK_RESERVE_BYTES { bytes := expected.size + DISK_RESERVE_BYTES; }
      r := Success(bytes);
    }

    /** Goes on only if the disk has room for what remains and 512 MiB to spare. */
    method RequireDisk(remaining: nat) returns (r: Outcome<()>, ghost free: nat)
      requires Valid() && remaining <= expected.size
      ensures r.Success? ==> remaining + 536_870_912 <= free
      ensures r.Failure? ==> r.error.DownloadFailed? || r.error.InsufficientDisk?
      ensures r == Failure(InsufficientDisk) ==> free < remaining + 536_870_912
      ensures remaining + 536_870_912 >= 0x1_0000_0000_0000_0000 ==> r == Failure(DownloadFailed)
      ensures calm ==> r.Success?
    {
      free := 0;
      var required := remaining + DISK_RESERVE_BYTES;
      if required >= U64 { return Failure(DownloadFailed), 0; }
      var available := AvailableBytes();
      if available.Failure? { return Failure(available.error), 0; }
      free := available.value;
      if available.value < required { return Failure(InsufficientDisk), free; }
      r := Success(());
    }

    // ---- files --------------------------------------------------------------

    /** Hashes an open file to its end, looking up between reads. */
    method HashFile(bytes: Bytes) returns (r: Outcome<(nat, Digest)>)
      requires Valid()
      modifies `canceled
      ensures Valid() && (old(canceled) ==> canceled)
      ensures r.Success? ==> r.value == (|bytes|, Sha256(bytes))
      ensures r.Failure? ==> r.error.ModelFileInvalid? || (r.error.DownloadCanceled? && canceled)
      ensures calm ==> r.Success?
    {
      var total := 0;
      while true
        invariant total <= |bytes| && Valid() && (old(canceled) ==> canceled)
        decreases |bytes| - total
      {
        var stop := IsCanceled();
        if stop { return Failure(DownloadCanceled); }
        var fails := Fails();
        if fails { return Failure(ModelFileInvalid); }
        var read := ReadSome(|bytes| - total);
        if read == 0 { break; }
        total := total + read;
      }
      r := Success((total, Sha256(bytes)));
    }

    /** How much one read brings: nothing only at the end. */
    method ReadSome(available: nat) returns (read: nat)
      ensures read <= available && read <= BUFFER_BYTES && (read == 0 <==> available == 0)
    {
      var most := if available < BUFFER_BYTES then available else BUFFER_BYTES;
      var some: nat := *;
      read := if 0 < some < most then some else most;
    }

    /** Succeeds only on a regular file of the expected size and digest. */
    method ValidateFile(node: Option<Node>) returns (r: Outcome<()>)
      requires Valid()
      modifies `canceled
      ensures Valid() && (old(canceled) ==> canceled)
      ensures r.Success? ==> Matches(node, expected)
      ensures r.Failure? ==> r.error.ModelFileInvalid? || (r.error.DownloadCanceled? && canceled)
      ensures old(canceled) ==> r == Failure(DownloadCanceled)
      ensures calm ==> (r.Success? <==> Matches(node, expected))
    {
      var stop := IsCanceled();
      if stop { return Failure(DownloadCanceled); }
      var fails := Fails();
      if fails || node.None? || node.value.NotAFile? || |node.value.bytes| != expected.size {
        return Failure(ModelFileInvalid);
      }
      var hashed := HashFile(node.value.bytes);
      if hashed.Failure? { return Failure(hashed.error); }
      if hashed.value.0 != expected.size || hashed.value.1 != expected.digest { return Failure(ModelFileInvalid); }
      r := Success(());
    }

    method RemoveFinal() returns (removed: bool)
      modifies `final
      ensures removed ==> final.None?
      ensures !removed ==> final == old(final)
      ensures calm && old(final).Some? && old(final).value.Regular? ==> removed
    {
      var fails := Fails();
      removed := !fails && final.Some? && final.value.Regular?;
      if removed { final := None; }
    }

    method PartialLength() returns (r: Outcome<nat>)
      ensures r.Success? ==>
        if partial.None? then r.value == 0 else partial.value.Regular? && r.value == |partial.value.bytes|
      ensures r.Failure? ==> r.error.DownloadFailed?
      ensures calm ==> (r.Success? <==> partial.None? || partial.value.Regular?)
    {
      var fails := Fails();
      if fails { return Failure(DownloadFailed); }
      if partial.None? { return Success(0); }
      if partial.value.NotAFile? { return Failure(DownloadFailed); }
      r := Success(|partial.value.bytes|);
    }

    /** Opens the partial file, emptying it unless what is there is to be kept. */
    method OpenPartial(append: bool) returns (ready: bool)
      modifies `partial
      ensures ready ==>
        && partial.Some? && partial.value.Regular?
        && partial.value.bytes == if append && old(partial).Some? && old(partial).value.Regular? then old(partial).value.bytes else []
      ensures !ready ==> partial == old(partial)
      ensures calm && (partial.None? || partial.value.Regular?) ==> ready
    {
      var fails := Fails();
      if fails || (partial.Some? && partial.value.NotAFile?) { return false; }
      if !append || partial.None? { partial := Some(Regular([])); }
      ready := true;
    }

    /** Appends to the partial file; a failing write may have got part of the way. */
    method WriteAll(bytes: Bytes) returns (written: bool, ghost k: nat)
      requires partial.Some? && partial.value.Regular?
      modifies `partial
      ensures partial.Some? && partial.value.Regular?
      ensures k <= |bytes| && partial.value.bytes == old(partial).value.bytes + bytes[..k]
      ensures written ==> k == |bytes|
      ensures calm ==> written
    {
      var fails := Fails();
      var some: nat := *;
      var part := if fails && 0 <= some < |bytes| then some else |bytes|;
      partial := Some(Regular(partial.value.bytes + bytes[..part]));
      written, k := !fails, part;
    }

    /** Moves the partial file into place. It may land although it reports failure. */
    method Publish() returns (renamed: bool)
      requires partial.Some?
      modifies `partial, `final
      ensures (partial == old(partial) && final == old(final)) || (partial.None? && final == old(partial))
      ensures renamed ==> final == old(partial) && partial.None?
      ensures calm ==> renamed
    {
      var refused := Fails();
      if refused { return false; }
      final, partial := partial, None;
      var unheard := Fails();
      renamed := !unheard;
    }

    // ---- one attempt --------------------------------------------------------

    /** The server answers a request for the rest of the file with the rest of the file. */
    ghost predicate Ranged(server: Option<nat> -> Outcome<Response>) {
      forall k: nat {:trigger server(Some(k))} :: server(Some(k)).Success? ==>
        server(Some(k)).value.status == 206 && Confirmed(server(Some(k)).value.contentRange, k, expected.size)
    }

    ghost predicate Kept(before: Option<Node>)
      reads this
    {
      Keeps(before, Directory(final, partial), expected)
    }

    /** The reply to a request for the rest of a partial file was cut off, and all that
        came of it stands behind what there was. */
    ghost predicate WentOn(before: Option<Node>, server: Option<nat> -> Outcome<Response>, r: Outcome<()>)
      reads this
    {
      before.Some? && before.value.Regular? && 0 < |before.value.bytes| < expected.size
      && server(Some(|before.value.bytes|)).Success? && r == Failure(DownloadInterrupted) ==>
        partial == Some(Regular(before.value.bytes + server(Some(|before.value.bytes|)).value.body))
    }

    /** There is nothing a resumed download could go on from. */
    predicate NothingToKeep(before: Option<Node>) {
      before.None? || (before.value.Regular? && (before.value.bytes == [] || |before.value.bytes| >= expected.size))
    }

    /** The server as this attempt finds it. */
    ghost predicate Serves(server: Option<nat> -> Outcome<Response>) {
      && (honest ==> forall request :: server(request).Success? ==> Truthful(served, server(request).value))
      && (prompt ==> forall request :: server(request).Success? && Prompt(served, request, server(request).value))
    }

    method Download(server: Option<nat> -> Outcome<Response>) returns (r: Outcome<()>)
      requires Valid() && Serves(server)
      modifies this
      ensures Valid() && (old(canceled) ==> canceled)
      ensures r.Success? ==> Matches(final, expected)
      ensures (expected.name in {"", ".", ".."} || '/' in expected.name || '\\' in expected.name) ==>
        r == Failure(ModelFileInvalid) && final == old(final) && partial == old(partial)
      ensures honest && Resumable(old(partial), served) ==> Resumable(partial, served)
      ensures Ranged(server) ==> Kept(old(partial)) && WentOn(old(partial), server, r)
      ensures old(canceled) ==> r.Failure? && final == old(final) && partial == old(partial)
      ensures r.Success? ==> !canceled
      ensures calm && FilesAreRegular(old(final), old(partial)) && SafeInstallName(expected.name) ==>
        && (Matches(old(final), expected) ==> r.Success? && final == old(final) && partial == old(partial))
        && (!Matches(old(final), expected) && Matches(old(partial), expected) ==>
              r.Success? && final == old(partial) && partial == None)
      ensures steady && FilesAreRegular(old(final), old(partial)) && SafeInstallName(expected.name) ==>
        && FilesAreRegular(final, partial)
        && (r.Failure? ==> FullButWrong(old(partial)))
    {
      hide Serves;
      if !SafeInstallName(expected.name) { return Failure(ModelFileInvalid); }
      var noDirectory := Fails();
      if noDirectory { return Failure(DownloadFailed); }
      if final.Some? {
        var checked := ValidateFile(final);
        if checked.Success? {
          var late := IsCanceled();
          if late { return Failure(DownloadCanceled); }
          return Success(());
        }
        if checked.error.DownloadCanceled? { return Failure(checked.error); }
        var removed := RemoveFinal();
        if !removed { return Failure(ModelFileInvalid); }
      }
      var stop := IsCanceled();
      if stop { return Failure(DownloadCanceled); }
      r := Resume(server);
    }

    /** This attempt put a file of the right size and the wrong bytes together:
        it resumed from bytes that were not the start of the served file. */
    ghost predicate FullButWrong(before: Option<Node>)
      reads this
    {
      && final.None? && partial.Some? && partial.value.Regular? && |partial.value.bytes| == expected.size
      && before.Some? && before.value.Regular? && 0 < |before.value.bytes| < expected.size
      && !(before.value.bytes <= served)
    }

    /** Goes on from whatever the partial file holds. */
    method Resume(server: Option<nat> -> Outcome<Response>) returns (r: Outcome<()>)
      requires Valid() && Serves(server) && final.None?
      modifies this
      ensures Valid() && (old(canceled) ==> canceled)
      ensures r.Success? ==> Matches(final, expected)
      ensures honest && Resumable(old(partial), served) ==> Resumable(partial, served)
      ensures Ranged(server) ==> Kept(old(partial)) && WentOn(old(partial), server, r)
      ensures r.Success? ==> !canceled
      ensures calm && Matches(old(partial), expected) ==> r.Success? && final == old(partial) && partial == None
      ensures steady && FilesAreRegular(None, old(partial)) ==>
        && FilesAreRegular(final, partial)
        && (r.Failure? ==> FullButWrong(old(partial)))
    {
      hide Serves;
      var existing := PartialLength();
      if existing.Failure? { return Failure(existing.error); }
      if existing.value == expected.size {
        var checked := ValidateFile(partial);
        if checked.Success? {
          var stop := IsCanceled();
          if stop { return Failure(DownloadCanceled); }
          var renamed := Publish();
          return if renamed then Success(()) else Failure(DownloadFailed);
        }
        if checked.error.DownloadCanceled? { return Failure(checked.error); }
      }
      var requested := if 0 < existing.value < expected.size then Some(existing.value) else None;
      r := Fetch(server, requested);
    }

    predicate FilesAreRegular(final: Option<Node>, partial: Option<Node>) {
      (final.Some? ==> final.value.Regular?) && (partial.Some? ==> partial.value.Regular?)
    }

    /** Asks the server for what is missing and installs it. */
    method Fetch(server: Option<nat> -> Outcome<Response>, requested: Option<nat>) returns (r: Outcome<()>)
      requires Valid() && Serves(server) && final.None?
      requires partial.Some? ==> partial.value.Regular?
      requires requested.Some? ==> partial.Some? && requested.value == |partial.value.bytes| && 0 < requested.value < expected.size
      modifies this
      ensures Valid() && (old(canceled) ==> canceled)
      ensures r.Success? ==> Matches(final, expected)
      ensures honest && Resumable(old(partial), served) ==> Resumable(partial, served)
      ensures Ranged(server) && (requested.Some? || NothingToKeep(old(partial))) ==>
        Kept(old(partial)) && WentOn(old(partial), server, r)
      ensures r.Success? ==> !canceled
      ensures steady ==>
        && FilesAreRegular(final, partial)
        && (r.Failure? ==> requested.Some? && FullButWrong(old(partial)))
    {
      var room;
      ghost var free;
      room, free := RequireDisk(expected.size - (if requested.Some? then requested.value else 0));
      if room.Failure? { return Failure(room.error); }
      if requested.Some? {
        var prefix := HashFile(partial.value.bytes);
        if prefix.Failure? { return Failure(prefix.error); }
      }
      var stop := IsCanceled();
      var reply := server(requested);
      if reply.Failure? { return Failure(if stop then DownloadCanceled else reply.error); }
      r := Accept(server, requested, reply.value);
    }

    /** Puts what the reply brings where it belongs, and installs the file once it is whole. */
    method Accept(ghost server: Option<nat> -> Outcome<Response>, requested: Option<nat>, reply: Response)
      returns (r: Outcome<()>)
      requires Valid() && final.None? && server(requested) == Success(reply)
      requires (honest ==> Truthful(served, reply)) && (prompt ==> Prompt(served, requested, reply))
      requires partial.Some? ==> partial.value.Regular?
      requires requested.Some? ==> partial.Some? && requested.value == |partial.value.bytes| && 0 < requested.value < expected.size
      modifies this
      ensures Valid() && (old(canceled) ==> canceled)
      ensures r.Success? ==> Matches(final, expected)
      ensures honest && Resumable(old(partial), served) ==> Resumable(partial, served)
      ensures Ranged(server) && (requested.Some? || NothingToKeep(old(partial))) ==>
        Kept(old(partial)) && WentOn(old(partial), server, r)
      ensures r.Success? ==> !canceled
      ensures steady ==>
        && FilesAreRegular(final, partial)
        && (r.Failure? ==> requested.Some? && FullButWrong(old(partial)))
    {
      if steady { PromptIsUsable(served, requested, reply); }
      hide AppendFrom, Truthful, Prompt;
      var from := AppendFrom(requested, reply, expected.size);
      if from.None? { return Failure(DownloadFailed); }
      var room;
      ghost var free;
      room, free := RequireDisk(expected.size - from.value);
      if room.Failure? { return Failure(room.error); }
      var ready := OpenPartial(from.value > 0);
      if !ready { return Failure(DownloadFailed); }
      ghost var start := partial.value.bytes;
      ghost var k;
      r, k := Receive(reply, from.value);
      assert reply.body[..|reply.body|] == reply.body;
      if honest { Continues(served, requested, reply, from.value, start, k); }
      if steady { PromptContinues(served, requested, reply, from.value, start, k); }
      if r.Success? { r := Install(); }
    }

    /** Writes the body as it arrives. */
    method Receive(response: Response, appendFrom: nat) returns (r: Outcome<()>, ghost k: nat)
      requires Valid() && partial.Some? && partial.value.Regular? && |partial.value.bytes| == appendFrom <= expected.size
      modifies `partial, `canceled
      ensures Valid() && (old(canceled) ==> canceled)
      ensures partial.Some? && partial.value.Regular?
      ensures k <= |response.body| && partial.value.bytes == old(partial).value.bytes + response.body[..k]
      ensures r.Success? ==> |partial.value.bytes| == expected.size
      ensures r == Failure(DownloadInterrupted) ==> k == |response.body|
      ensures calm && !response.breaks && appendFrom + |response.body| == expected.size ==>
        r.Success? && k == |response.body|
    {
      var completed, position := appendFrom, 0;
      k := 0;
      while true
        invariant Valid() && (old(canceled) ==> canceled)
        invariant position <= |response.body| && completed == appendFrom + position <= expected.size
        invariant partial.Some? && partial.value.Regular?
        invariant k == position && partial.value.bytes == old(partial).value.bytes + response.body[..k]
        decreases |response.body| - position
      {
        var stop := IsCanceled();
        if stop {
          var unsynced := Fails();
          return Failure(if unsynced then DownloadFailed else DownloadCanceled), k;
        }
        var read := ReadSome(|response.body| - position);
        if read == 0 && response.breaks {
          stop := IsCanceled();
          var unsynced := Fails();
          return Failure(if unsynced then DownloadFailed else if stop then DownloadCanceled else DownloadInterrupted), k;
        }
        if read == 0 { break; }
        if completed + read > expected.size { return Failure(ModelFileInvalid), k; }
        var written;
        ghost var part;
        written, part := WriteAll(response.body[position..position + read]);
        AppendedChunk(old(partial).value.bytes, response.body, position, read, part);
        k := position + part;
        if !written { return Failure(DownloadFailed), k; }
        completed, position := completed + read, position + read;
      }
      var unflushed := Fails();
      if unflushed { return Failure(DownloadFailed), k; }
      if completed != expected.size { return Failure(ModelFileInvalid), k; }
      r := Success(());
    }

    /** Verifies the whole partial file once more and renames it into place. */
    method Install() returns (r: Outcome<()>)
      requires Valid() && partial.Some? && partial.value.Regular?
      modifies this
      ensures Valid() && (old(canceled) ==> canceled)
      ensures r.Success? ==> Matches(final, expected)
      ensures r.Failure? ==> !r.error.DownloadInterrupted?
      ensures r.Success? ==> !canceled
      ensures partial == old(partial) || (partial.None? && Matches(final, expected))
      ensures calm && old(final).None? ==>
        if Matches(old(partial), expected) then r.Success? && partial.None? && final == old(partial)
        else r.Failure? && partial == old(partial) && final.None?
    {
      var verified := ValidateFile(partial);
      if verified.Failure? { return Failure(verified.error); }
      var stop := IsCanceled();
      if stop { return Failure(DownloadCanceled); }
      if final.Some? { return Failure(DownloadFailed); }
      var renamed := Publish();
      r := if renamed then Success(()) else Failure(DownloadFailed);
    }

    // ---- installing a file a person has --------------------------------------

    method InstallSelected(selected: Selected) returns (r: Outcome<()>)
      requires Valid()
      modifies this
      ensures Valid() && (old(canceled) ==> canceled)
      ensures r.Success? ==> Matches(final, expected)
      ensures !SafeInstallName(expected.name) || selected.PartialFile? ==>
        r.Failure? && final == old(final) && partial == old(partial)
      ensures !SafeInstallName(expected.name) ==> r == Failure(ModelFileInvalid)
      ensures calm && SafeInstallName(expected.name) && FilesAreRegular(old(final), old(partial)) ==>
        match selected
        case PartialFile => r == Failure(ModelFileInvalid)
        case InstalledFile => r.Success? <==> Matches(old(final), expected)
        case Elsewhere(node) => r.Success? <==> Matches(old(final), expected) || Matches(node, expected)
    {
      if !SafeInstallName(expected.name) { return Failure(ModelFileInvalid); }
      var noDirectory := Fails();
      if noDirectory { return Failure(DownloadFailed); }
      var stop := IsCanceled();
      if stop { return Failure(DownloadCanceled); }
      if selected.InstalledFile? {
        r := ValidateFile(final);
        stop := IsCanceled();
        return if r.Success? && stop then Failure(DownloadCanceled) else r;
      }
      if selected.PartialFile? { return Failure(ModelFileInvalid); }
      if final.Some? {
        var checked := ValidateFile(final);
        if checked.Success? {
          stop := IsCanceled();
          return if stop then Failure(DownloadCanceled) else Success(());
        }
        if checked.error.DownloadCanceled? { return Failure(checked.error); }
        var removed := RemoveFinal();
        if !removed { return Failure(ModelFileInvalid); }
      }
      r := CopySelected(selected.node);
    }

    /** Copies the chosen file into the partial one, and checks it before and after. */
    method CopySelected(node: Option<Node>) returns (r: Outcome<()>)
      requires Valid() && final.None?
      modifies this
      ensures Valid() && (old(canceled) ==> canceled)
      ensures r.Success? ==> Matches(final, expected)
      ensures calm && FilesAreRegular(None, old(partial)) ==> (r.Success? <==> Matches(node, expected))
    {
      var room;
      ghost var free;
      room, free := RequireDisk(expected.size);
      if room.Failure? { return Failure(room.error); }
      var checked := ValidateFile(node);
      if checked.Failure? { return Failure(checked.error); }
      var stop := IsCanceled();
      if stop { return Failure(DownloadCanceled); }
      var ready := OpenPartial(false);
      if !ready { return Failure(DownloadFailed); }
      r := CopyInto(node.value.bytes);
      if r.Success? { r := InstallCopied(); }
    }

    /** As `Install`, but a file in the way is noticed before a cancellation. */
    method InstallCopied() returns (r: Outcome<()>)
      requires Valid() && partial.Some? && partial.value.Regular?
      modifies this
      ensures Valid() && (old(canceled) ==> canceled)
      ensures r.Success? ==> Matches(final, expected)
      ensures old(final).Some? ==> r.Failure? && final == old(final) && partial == old(partial)
      ensures calm && old(final).None? ==>
        if Matches(old(partial), expected) then r.Success? && partial.None? && final == old(partial)
        else r.Failure? && partial == old(partial) && final.None?
    {
      var verified := ValidateFile(partial);
      if verified.Failure? { return Failure(verified.error); }
      if final.Some? { return Failure(DownloadFailed); }
      var stop := IsCanceled();
      if stop { return Failure(DownloadCanceled); }
      var renamed := Publish();
      r := if renamed then Success(()) else Failure(DownloadFailed);
    }

    method CopyInto(bytes: Bytes) returns (r: Outcome<()>)
      requires Valid() && partial == Some(Regular([]))
      modifies `partial, `canceled
      ensures Valid() && (old(canceled) ==> canceled)
      ensures partial.Some? && partial.value.Regular?
      ensures r.Success? ==> partial.value.bytes == bytes && |bytes| == expected.size
      ensures calm && |bytes| == expected.size ==> r.Success?
    {
      var copied := 0;
      while true
        invariant Valid() && (old(canceled) ==> canceled)
        invariant copied <= |bytes| && partial == Some(Regular(bytes[..copied]))
        decreases |bytes| - copied
      {
        var stop := IsCanceled();
        if stop {
          var unsynced := Fails();
          return Failure(if unsynced then DownloadFailed else DownloadCanceled);
        }
        var unread := Fails();
        if unread { return Failure(ModelFileInvalid); }
        var read := ReadSome(|bytes| - copied);
        if read == 0 { break; }
        var written;
        ghost var part;
        written, part := WriteAll(bytes[copied..copied + read]);
        if !written { return Failure(DownloadFailed); }
        assert bytes[copied..copied + read][..read] == bytes[copied..copied + read];
        assert bytes[..copied] + bytes[copied..copied + read] == bytes[..copied + read];
        copied := copied + read;
      }
      assert bytes[..copied] == bytes;
      var unflushed := Fails();
      if unflushed { return Failure(DownloadFailed); }
      r := if copied != expected.size then Failure(ModelFileInvalid) else Success(());
    }

    // ---- many attempts ------------------------------------------------------

    /** Whatever regular files an installation starts from, two attempts that
        nothing disturbs leave the expected file installed. */
    method TwoAttemptsSuffice(first: Option<nat> -> Outcome<Response>, second: Option<nat> -> Outcome<Response>)
      returns (r: Outcome<()>)
      requires Valid() && Serves(first) && Serves(second) && steady
      requires FilesAreRegular(final, partial) && SafeInstallName(expected.name)
      modifies this
      ensures r.Success? && Matches(final, expected)
    {
      hide Serves, Matches;
      r := Download(first);
      if r.Failure? { r := Download(second); }
    }

    /** Any number of attempts, each interrupted or cancelled wherever it may be,
        by a server that tells the truth: the partial file stays the start of the
        served file, and what an attempt reports installed is the expected file. By
        one that also answers for the rest of the file with the rest of it, the partial
        file only ever grows, until it is whole. */
    method Attempts(servers: seq<Option<nat> -> Outcome<Response>>) returns (last: Outcome<()>, ghost seen: seq<Directory>)
      requires Valid() && honest && Resumable(partial, served)
      requires forall i :: 0 <= i < |servers| ==> Serves(servers[i])
      modifies this
      ensures Valid() && Resumable(partial, served)
      ensures last.Success? ==> Matches(final, expected)
      ensures |seen| == |servers| + 1 && seen[0] == Directory(old(final), old(partial)) && seen[|servers|] == Directory(final, partial)
      ensures forall i :: 0 <= i < |servers| && Ranged(servers[i]) ==> Keeps(seen[i].partial, seen[i + 1], expected)
      ensures (forall i :: 0 <= i < |servers| ==> Ranged(servers[i]))
              && (forall i :: 0 < i <= |servers| ==> !IsWhole(seen[i], expected)) ==>
        Grows(old(partial), partial, expected)
    {
      hide Serves, Matches, Resumable, Ranged, Keeps, Grows;
      last, seen := Failure(DownloadInterrupted), [Directory(final, partial)];
      for i := 0 to |servers|
        invariant Valid() && Resumable(partial, served)
        invariant last.Success? ==> Matches(final, expected)
        invariant |seen| == i + 1 && seen[0] == Directory(old(final), old(partial)) && seen[i] == Directory(final, partial)
        invariant forall k :: 0 <= k < i && Ranged(servers[k]) ==> Keeps(seen[k].partial, seen[k + 1], expected)
      {
        canceled := false;
        assert Serves(servers[i]);
        last := Download(servers[i]);
        seen := seen + [Directory(final, partial)];
      }
      if forall k :: 0 < k <= |servers| ==> !IsWhole(seen[k], expected) {
        if forall k :: 0 <= k < |servers| ==> Ranged(servers[k]) { GrowsAllAlong(seen, expected); }
      }
    }
  }

  /** As long as it is not whole, a file kept at every step has grown at the end. */
  lemma {:induction false} GrowsAllAlong(seen: seq<Directory>, expected: ModelFile)
    requires seen != [] && forall i :: 0 < i < |seen| ==> !IsWhole(seen[i], expected)
    requires forall i :: 0 <= i < |seen| - 1 ==> Keeps(seen[i].partial, seen[i + 1], expected)
    ensures Grows(seen[0].partial, seen[|seen| - 1].partial, expected)
    decreases |seen|
  {
    if |seen| > 1 {
      var front := seen[..|seen| - 1];
      forall i | 0 <= i < |front| - 1 ensures Keeps(front[i].partial, front[i + 1], expected) {
        assert Keeps(seen[i].partial, seen[i + 1], expected);
      }
      GrowsAllAlong(front, expected);
      assert Keeps(seen[|seen| - 2].partial, seen[|seen| - 2 + 1], expected);
    }
  }

  /** Where the body of a reply continues the file, if it can be used at all. */
  function AppendFrom(requested: Option<nat>, r: Response, size: nat): Option<nat> {
    if requested.Some? && r.status == 206 && Confirmed(r.contentRange, requested.value, size) then requested
    else if r.status == 200 then Some(0)
    else if requested.None? && r.status == 206 && Confirmed(r.contentRange, 0, size) then Some(0)
    else None
  }

  /** A truthful reply continues the served file from where it is appended. */
  lemma Continues(served: Bytes, requested: Option<nat>, r: Response, from: nat, start: Bytes, k: nat)
    requires Truthful(served, r) && |served| < U64 && AppendFrom(requested, r, |served|) == Some(from)
    requires |start| == from && k <= |r.body|
    ensures from + |r.body| <= |served| && r.body <= served[from..]
    ensures start <= served ==> start + r.body[..k] <= served
  {
    if r.status == 206 { ContinuesRange(served, r, from); }
    if start <= served { PrefixGrows(served, start, r.body, k); }
  }

  lemma ContinuesRange(served: Bytes, r: Response, from: nat)
    requires Truthful(served, r) && r.status == 206 && |served| < U64 && Confirmed(r.contentRange, from, |served|)
    ensures from <= |served| && r.body <= served[from..]
  {
    hide Confirmed;
    var first: nat, last: nat :| TruthfulRange(served, r, first, last);
    TruthfulHeaderConfirms(first, last, |served|, from, |served|);
  }

  lemma PrefixGrows(served: Bytes, start: Bytes, body: Bytes, k: nat)
    requires start <= served && body <= served[|start|..] && k <= |body|
    ensures start + body[..k] <= served
  {
    assert served == start + served[|start|..];
  }

  /** A prompt reply brings all that was missing. */
  lemma PromptContinues(served: Bytes, requested: Option<nat>, r: Response, from: nat, start: Bytes, k: nat)
    requires Prompt(served, requested, r) && |served| < U64 && AppendFrom(requested, r, |served|) == Some(from)
    requires |start| == from && k <= |r.body|
    ensures !r.breaks && from + |r.body| == |served|
    ensures from > 0 ==> requested == Some(from)
    ensures k == |r.body| ==> (start <= served <==> start + r.body[..k] == served)
  {
    if r.status == 206 {
      var from := if requested.Some? then requested.value else 0;
      TruthfulHeaderConfirms(from, |served| - 1, |served|, from, |served|);
    }
    if k == |r.body| { WholeBody(served, r.body, from, start); }
  }

  lemma WholeBody(served: Bytes, body: Bytes, from: nat, start: Bytes)
    requires from <= |served| && body == served[from..] && |start| == from
    ensures start <= served <==> start + body[..|body|] == served
  {
    assert served == served[..from] + served[from..];
    assert (start + body)[..from] == start;
  }

  lemma PromptIsUsable(served: Bytes, requested: Option<nat>, r: Response)
    requires Prompt(served, requested, r) && |served| < U64
    ensures AppendFrom(requested, r, |served|).Some?
  {
    if r.status == 206 {
      var from := if requested.Some? then requested.value else 0;
      TruthfulHeaderConfirms(from, |served| - 1, |served|, from, |served|);
    }
  }

  lemma AppendedChunk(start: Bytes, body: Bytes, position: nat, read: nat, k: nat)
    requires position + read <= |body| && k <= read
    ensures start + body[..position] + body[position..position + read][..k] == start + body[..position + k]
  {
    assert body[..position] + body[position..position + read][..k] == body[..position + k];
  }
}
