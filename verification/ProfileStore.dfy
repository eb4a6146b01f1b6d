/** The content-addressed store of policy profiles with its append-only approval log, under crashes and
    files dropped in by others (backend/app/services/policy_profile_store.py). */
module ProfileStore {
  import opened Wrappers

  /** A profile; both approval fields are set or neither is. */
  datatype Profile = Profile(id: string, body: string, approval: Option<Approval>)

  datatype Approval = Approval(name: string, at: string)

  datatype LogEntry =
    | DraftCreated(ref: string, basedOn: Option<string>)
    | Approved(ref: string, draft: string, approval: Approval)

  datatype Failure = NotFound | Refused

  /** Hashing, parsing and dumping; `named` is the approver-name rule with its trimming. */
  datatype Codec = Codec(
    hash: string -> string, parse: string -> Option<Profile>, dump: Profile -> string, named: string -> Option<string>)

  /** SHA-256 is taken as injective, and a dumped profile that parses at all parses to itself. */
  ghost predicate ValidCodec(c: Codec) {
    && (forall a, b :: c.hash(a) == c.hash(b) ==> a == b)
    && (forall p :: c.parse(c.dump(p)).Some? ==> c.parse(c.dump(p)) == Some(p))
  }

  datatype Seed = Seed(data: string, profile: Profile)

  /** The files on disk. A line torn by a crash makes the whole log unreadable from then on. */
  datatype Disk = Disk(objects: map<string, string>, log: seq<LogEntry>, torn: bool)

  /** Where a process dies inside a write: nothing done, the first of the two files written, the log line
      torn, or not at all. */
  datatype Crash = AtOnce | Between | TornLine | Never

  /** The first approval entry of a reference. */
  function ApprovalOf(log: seq<LogEntry>, ref: string): (a: Option<Approval>) {
    if log == [] then None
    else if log[0].Approved? && log[0].ref == ref then Some(log[0].approval)
    else ApprovalOf(log[1..], ref)
  }

  /** get. */
  function GetFrom(c: Codec, seed: Option<Seed>, d: Disk, ref: string): (r: Result<Profile, Failure>) {
    if seed.Some? && c.hash(seed.value.data) == ref then Ok(seed.value.profile)
    else if ref !in d.objects then Err(NotFound)
    else if c.hash(d.objects[ref]) != ref then Err(Refused)
    else
      match c.parse(d.objects[ref])
      case None => Err(Refused)
      case Some(p) =>
        if p.approval.None? then Ok(p)
        else if d.torn || ApprovalOf(d.log, ref) != p.approval then Err(Refused)
        else Ok(p)
  }

  /** One call of approve that got as far as its log entry: who approved which draft content when. */
  datatype Act = Act(name: string, at: string, draft: Profile)

  function Granted(act: Act): (p: Profile) {
    act.draft.(approval := Some(Approval(act.name, act.at)))
  }

  /** Every approval entry was written by an approve call, for exactly the profile it produced. */
  ghost predicate LogBacked(c: Codec, log: seq<LogEntry>, acts: set<Act>) {
    forall e :: e in log && e.Approved? ==>
      exists act :: act in acts && act.draft.approval.None? && e.approval == Approval(act.name, act.at)
                    && e.ref == c.hash(c.dump(Granted(act)))
  }

  lemma {:induction false} ApprovalListed(log: seq<LogEntry>, ref: string)
    ensures ApprovalOf(log, ref).Some? ==>
              exists e :: e in log && e.Approved? && e.ref == ref && e.approval == ApprovalOf(log, ref).value
    ensures ApprovalOf(log, ref).None? ==> forall e :: e in log && e.Approved? ==> e.ref != ref
  {
    if log != [] {
      ApprovalListed(log[1..], ref);
      if log[0].Approved? && log[0].ref == ref {
        assert log[0] in log;
      }
      assert forall e :: e in log ==> e == log[0] || e in log[1..];
    }
  }

  /** A store object is returned as approved only if an approve call by that name logged it, and then its
      content is the approved draft's. */
  lemma {:induction false} ApprovedOnlyByApprove(c: Codec, seed: Option<Seed>, d: Disk, acts: set<Act>, ref: string)
    requires ValidCodec(c) && LogBacked(c, d.log, acts)
    requires !(seed.Some? && c.hash(seed.value.data) == ref)
    requires GetFrom(c, seed, d, ref).Ok? && GetFrom(c, seed, d, ref).value.approval.Some?
    ensures exists act :: act in acts && act.draft.approval.None? && GetFrom(c, seed, d, ref).value == Granted(act)
  {
    var p := GetFrom(c, seed, d, ref).value;
    ApprovalListed(d.log, ref);
    var e :| e in d.log && e.Approved? && e.ref == ref && e.approval == p.approval.value;
    var act :| act in acts && act.draft.approval.None? && e.approval == Approval(act.name, act.at)
               && e.ref == c.hash(c.dump(Granted(act)));
    assert d.objects[ref] == c.dump(Granted(act));
  }

  /** A reference always means the same profile: whatever happened to the files between two successful
      reads, they return equal profiles. */
  lemma {:induction false} ReferenceIsContent(c: Codec, seed: Option<Seed>, d: Disk, e: Disk, ref: string)
    requires ValidCodec(c)
    requires GetFrom(c, seed, d, ref).Ok? && GetFrom(c, seed, e, ref).Ok?
    ensures GetFrom(c, seed, d, ref) == GetFrom(c, seed, e, ref)
  {
    if !(seed.Some? && c.hash(seed.value.data) == ref) {
      assert d.objects[ref] == e.objects[ref];
    }
  }

  lemma {:induction false} ApprovalAppend(log: seq<LogEntry>, e: LogEntry, ref: string)
    ensures ApprovalOf(log + [e], ref)
         == if ApprovalOf(log, ref).Some? then ApprovalOf(log, ref)
            else if e.Approved? && e.ref == ref then Some(e.approval) else None
  {
    if log != [] {
      ApprovalAppend(log[1..], e, ref);
      assert (log + [e])[1..] == log[1..] + [e];
    }
  }

  class PolicyProfileStore {
    const codec: Codec
    const seed: Option<Seed>
    var objects: map<string, string>
    var log: seq<LogEntry>
    var torn: bool
    ghost var acts: set<Act>

    constructor (codec: Codec, seed: Option<Seed>)
      requires ValidCodec(codec) && (seed.Some? ==> codec.parse(seed.value.data) == Some(seed.value.profile))
      ensures Valid()
      ensures this.codec == codec && this.seed == seed && View() == Disk(map[], [], false) && acts == {}
    {
      this.codec, this.seed := codec, seed;
      objects, log, torn, acts := map[], [], false, {};
    }

    function View(): (d: Disk)
      reads this
    {
      Disk(objects, log, torn)
    }

    /** The only thing the store relies on is its log; any file may have been put into its directory. */
    ghost predicate Valid()
      reads this
    {
      ValidCodec(codec) && LogBacked(codec, log, acts)
      && (seed.Some? ==> codec.parse(seed.value.data) == Some(seed.value.profile))
    }

    /** get never writes; an approved store profile names an approve call recorded before. */
    method Get(ref: string) returns (r: Result<Profile, Failure>)
      requires Valid()
      ensures r == GetFrom(codec, seed, View(), ref)
      ensures r.Ok? && r.value.approval.Some? && !(seed.Some? && codec.hash(seed.value.data) == ref) ==>
                exists act :: act in acts && act.draft.approval.None? && r.value == Granted(act)
    {
      r := GetFrom(codec, seed, View(), ref);
      if r.Ok? && r.value.approval.Some? && !(seed.Some? && codec.hash(seed.value.data) == ref) {
        ApprovedOnlyByApprove(codec, seed, View(), acts, ref);
      }
    }

    /** _write: never rewrites an existing file. */
    method Write(data: string) returns (ref: string)
      modifies this`objects
      ensures ref == codec.hash(data)
      ensures objects == if ref in old(objects) then old(objects) else old(objects)[ref := data]
    {
      ref := codec.hash(data);
      if ref !in objects {
        objects := objects[ref := data];
      }
    }

    method AppendLog(e: LogEntry, tearing: bool)
      modifies this`log, this`torn
      ensures log == (if tearing then old(log) else old(log) + [e]) && torn == (old(torn) || tearing)
    {
      if tearing {
        torn := true;
      } else {
        log := log + [e];
      }
    }

    /** create_draft: refused without any change unless the profile it is based on can be read and the new
        one parses; otherwise object first, then the log entry. The result is never approved. */
    method CreateDraft(id: string, body: string, basedOn: Option<string>, crash: Crash)
      returns (r: Option<Result<Profile, Failure>>)
      requires Valid()
      modifies this
      ensures Valid() && acts == old(acts)
      ensures forall k :: k in old(objects) ==> k in objects && objects[k] == old(objects)[k]
      ensures var draft := Profile(id, body, None);
              var data := codec.dump(draft);
              var ref := codec.hash(data);
              if (basedOn.Some? && GetFrom(codec, seed, old(View()), basedOn.value).Err?) || codec.parse(data).None?
              then View() == old(View()) && r.Some? && r.value.Err?
              else
                && objects.Keys <= old(objects).Keys + {ref}
                && (log == old(log) || log == old(log) + [DraftCreated(ref, basedOn)])
                && (crash == Never ==> r.Some? && ref in objects && log == old(log) + [DraftCreated(ref, basedOn)])
                && (r.Some? && r.value.Ok? && !(seed.Some? && codec.hash(seed.value.data) == ref) ==>
                    r.value.value == draft)
    {
      if basedOn.Some? {
        var base := GetFrom(codec, seed, View(), basedOn.value);
        if base.Err? {
          return Some(Err(base.error));
        }
      }
      var data := codec.dump(Profile(id, body, None));
      if codec.parse(data).None? {
        return Some(Err(Refused));
      }
      if crash == AtOnce {
        return None;
      }
      var ref := Write(data);
      if crash == Between {
        return None;
      }
      AppendLog(DraftCreated(ref, basedOn), crash == TornLine);
      if crash == TornLine {
        return None;
      }
      return Some(GetFrom(codec, seed, View(), ref));
    }

    /** approve: log entry first, then the new object; the draft stays as it was. A completed approval
        whose file name was free is readable as approved. */
    method Approve(draftRef: string, approver: string, at: string, crash: Crash)
      returns (r: Option<Result<Profile, Failure>>)
      requires Valid()
      modifies this
      ensures Valid()
      ensures forall k :: k in old(objects) ==> k in objects && objects[k] == old(objects)[k]
      ensures old(log) <= log && |log| <= |old(log)| + 1
      ensures var draft := GetFrom(codec, seed, old(View()), draftRef);
              var name := codec.named(approver);
              if name.None? || draft.Err? || draft.value.approval.Some?
              then View() == old(View()) && acts == old(acts) && r.Some? && r.value.Err?
              else
                var act := Act(name.value, at, draft.value);
                && old(acts) <= acts <= old(acts) + {act}
                && (crash == Never && codec.parse(codec.dump(Granted(act))).Some? && !old(torn)
                    && codec.hash(codec.dump(Granted(act))) !in old(objects)
                    ==> (r == Some(Ok(Granted(act))) && act in acts))
    {
      var name := codec.named(approver);
      var draft := GetFrom(codec, seed, View(), draftRef);
      if name.None? {
        return Some(Err(Refused));
      }
      if draft.Err? {
        return Some(Err(draft.error));
      }
      if draft.value.approval.Some? {
        return Some(Err(Refused));
      }
      var act := Act(name.value, at, draft.value);
      var data := codec.dump(Granted(act));
      if codec.parse(data).None? {
        return Some(Err(Refused));
      }
      if crash == AtOnce {
        return None;
      }
      var ref := codec.hash(data);
      ApprovalAppend(log, Approved(ref, draftRef, Approval(name.value, at)), ref);
      SameApproval(codec, log, acts, act);
      AppendLog(Approved(ref, draftRef, Approval(name.value, at)), crash == TornLine);
      acts := acts + {act};
      if crash != Never {
        return None;
      }
      ref := Write(data);
      return Some(GetFrom(codec, seed, View(), ref));
    }

    /** Anyone may put any file under any name; the log is the store's own. */
    method DropIn(name: string, data: string)
      requires Valid()
      modifies this`objects
      ensures Valid() && objects == old(objects)[name := data]
    {
      objects := objects[name := data];
    }
  }

  /** An earlier entry for the same reference is for the same approval. */
  lemma {:induction false} SameApproval(c: Codec, log: seq<LogEntry>, acts: set<Act>, act: Act)
    requires ValidCodec(c) && LogBacked(c, log, acts) && c.parse(c.dump(Granted(act))).Some?
    ensures ApprovalOf(log, c.hash(c.dump(Granted(act)))).Some? ==>
              ApprovalOf(log, c.hash(c.dump(Granted(act)))) == Some(Approval(act.name, act.at))
  {
    var ref := c.hash(c.dump(Granted(act)));
    ApprovalListed(log, ref);
    if ApprovalOf(log, ref).Some? {
      var e :| e in log && e.Approved? && e.ref == ref && e.approval == ApprovalOf(log, ref).value;
      var other :| other in acts && other.draft.approval.None? && e.approval == Approval(other.name, other.at)
                   && e.ref == c.hash(c.dump(Granted(other)));
      assert c.dump(Granted(other)) == c.dump(Granted(act));
      assert c.parse(c.dump(Granted(other))) == Some(Granted(other));
    }
  }
}
