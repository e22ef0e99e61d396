/**
 * Whole runs of the file system: any sequence of creates, removes, opens, closes, reads and writes, with any number of
 * open files held across each other's requests.
 */
module Sessions {
  import opened Options
  import opened Bytes
  import opened Storage
  import opened FileHeaders
  import opened OpenFiles
  import opened Directories
  import opened Volumes
  import opened FileSystems

  // The abstract file system

  /** An open file: on the file listed under `key`, on a file removed since, or closed. */
  datatype Handle = Live(key: seq<byte>) | Dead | Shut

  /** Named byte sequences, and the handles given out so far. */
  datatype Abstract = Abstract(files: Files, handles: seq<Handle>)

  datatype Request =
    | Create(name: seq<byte>, size: int)
    | Remove(name: seq<byte>)
    | Open(name: seq<byte>)
    | Close(k: nat)
    | WriteAt(k: nat, data: seq<byte>, position: int)
    | ReadAt(k: nat, numBytes: int, position: int)
  {
    predicate Legal() {
      match this
      case Create(name, size) => IsCString(name) && 0 <= size
      case Remove(name) => IsCString(name)
      case Open(name) => IsCString(name)
      case Close(_) => true
      case WriteAt(_, data, position) => data != [] ==> 0 <= position
      case ReadAt(_, numBytes, position) => numBytes > 0 ==> 0 <= position
    }
  }

  /** What a request returns: success or failure, the number of bytes written, or the bytes read. */
  datatype Response = Answer(ok: bool) | Moved(n: nat) | Got(bytes: seq<byte>)

  /**
   * The requests that the code can take: no size above the maximum, and no handle that is closed or on a removed file.
   */
  predicate Sane(handles: seq<Handle>, r: Request) {
    match r
    case Create(_, size) => size <= MAX_FILE_SIZE
    case Remove(_) => true
    case Open(_) => true
    case Close(k) => k < |handles|
    case WriteAt(k, _, _) => k < |handles| && handles[k].Live?
    case ReadAt(k, _, _) => k < |handles| && handles[k].Live?
  }

  /** The handles once the file listed under `key` is gone. */
  function Orphaned(handles: seq<Handle>, key: seq<byte>): (r: seq<Handle>)
    ensures |r| == |handles| && forall k | 0 <= k < |r| :: r[k] == if handles[k] == Live(key) then Dead else handles[k]
  {
    seq(|handles|, k requires 0 <= k < |handles| => if handles[k] == Live(key) then Dead else handles[k])
  }

  /** Live handles are on listed files. */
  predicate Attached(s: Abstract) {
    forall k | 0 <= k < |s.handles| && s.handles[k].Live? :: s.handles[k].key in s.files
  }

  function Without(s: Abstract, key: seq<byte>): Abstract {
    Abstract(s.files - {key}, Orphaned(s.handles, key))
  }

  function WithHandle(s: Abstract, key: seq<byte>): Abstract {
    if key in s.files then s.(handles := s.handles + [Live(key)]) else s
  }

  /** The contents of the file that live handle `k` is on. */
  function At(s: Abstract, k: nat): seq<byte>
    requires Attached(s) && k < |s.handles| && s.handles[k].Live?
  {
    s.files[s.handles[k].key]
  }

  function WithBytes(s: Abstract, k: nat, data: seq<byte>, position: int): Abstract
    requires Attached(s) && k < |s.handles| && s.handles[k].Live? && (data != [] ==> 0 <= position)
  {
    s.(files := s.files[s.handles[k].key := Overwrite(At(s, k), position, data[..Clamp(|data|, position, |At(s, k)|)])])
  }

  /** A new file of that size, whatever it holds at first, if there is room. */
  ghost predicate WithFile(s: Abstract, key: seq<byte>, size: nat, ok: bool, s': Abstract) {
    && ok == Admits(s.files, key, size)
    && if ok then key in s'.files && |s'.files[key]| == size
       && s' == s.(files := s.files[key := s'.files[key]]) else s' == s
  }

  /** One request: its response and the new state are determined, but for the first contents of a new file. */
  ghost predicate Allowed(s: Abstract, r: Request, a: Response, s': Abstract)
    requires Attached(s) && r.Legal() && Sane(s.handles, r)
  {
    match r
    case Create(name, size) => a.Answer? && WithFile(s, Key(name), size, a.ok, s')
    case Remove(name) => a == Answer(Key(name) in s.files) && s' == Without(s, Key(name))
    case Open(name) => a == Answer(Key(name) in s.files) && s' == WithHandle(s, Key(name))
    case Close(k) => a == Answer(true) && s' == s.(handles := s.handles[k := Shut])
    case WriteAt(k, data, position) =>
      a == Moved(Clamp(|data|, position, |At(s, k)|)) && s' == WithBytes(s, k, data, position)
    case ReadAt(k, numBytes, position) =>
      a == Got(Returned(At(s, k), position, numBytes)) && s' == s
  }

  /** A run: each request is answered as the abstract file system may answer it. */
  ghost predicate Run(trace: seq<Abstract>, requests: seq<Request>, responses: seq<Response>) {
    && |trace| == |requests| + 1 == |responses| + 1
    && forall i | 0 <= i < |requests| ::
         && Attached(trace[i]) && requests[i].Legal() && Sane(trace[i].handles, requests[i])
         && Allowed(trace[i], requests[i], responses[i], trace[i + 1])
  }

  lemma RunOne(s: Abstract, r: Request, a: Response, s': Abstract)
    requires Attached(s) && r.Legal() && Sane(s.handles, r) && Allowed(s, r, a, s')
    ensures Run([s, s'], [r], [a])
  {
  }

  lemma RunOn(trace: seq<Abstract>, requests: seq<Request>, responses: seq<Response>, a: Response, s: Abstract)
    requires |responses| < |requests| && Run(trace, requests[..|responses|], responses)
    requires Run([trace[|responses|], s], [requests[|responses|]], [a])
    ensures Run(trace + [s], requests[..|responses| + 1], responses + [a])
  {
    var n := |responses|;
    var one, trace', requests', responses' := [trace[n], s], trace + [s], requests[..n + 1], responses + [a];
    assert one[0] == trace[n] && one[1] == s;
    forall i | 0 <= i < |requests'|
      ensures Attached(trace'[i]) && requests'[i].Legal() && Sane(trace'[i].handles, requests'[i])
      ensures Allowed(trace'[i], requests'[i], responses'[i], trace'[i + 1])
    {
      if i < n {
        assert requests[..n][i] == requests'[i] && trace'[i + 1] == trace[i + 1];
      }
    }
  }

  // Handles on the disk

  predicate HandleOk(files: map<int, Node>, h: Header, handle: Handle, slot: int) {
    handle.Live? ==>
      slot in files && slot < NUM_DIR_ENTRIES && files[slot].name == handle.key && files[slot].hdr == h
  }

  predicate HandlesOk(files: map<int, Node>, hdrs: seq<Header>, handles: seq<Handle>, slots: seq<int>) {
    && |hdrs| == |handles| == |slots|
    && forall k | 0 <= k < |handles| :: HandleOk(files, hdrs[k], handles[k], slots[k])
  }

  /** A new file disturbs no handle. */
  lemma HandlesGrow(files: map<int, Node>, hdrs: seq<Header>, handles: seq<Handle>, slots: seq<int>, slot: int,
      node: Node)
    requires HandlesOk(files, hdrs, handles, slots) && slot !in files
    ensures HandlesOk(files[slot := node], hdrs, handles, slots)
  {
  }

  /** Removing a file disturbs the handles on that file and no others. */
  lemma HandlesShrink(files: map<int, Node>, hdrs: seq<Header>, handles: seq<Handle>, slots: seq<int>, slot: int)
    requires HandlesOk(files, hdrs, handles, slots) && slot in files
    ensures HandlesOk(files - {slot}, hdrs, Orphaned(handles, files[slot].name), slots)
  {
    forall k | 0 <= k < |handles|
      ensures HandleOk(files - {slot}, hdrs[k], Orphaned(handles, files[slot].name)[k], slots[k])
    {
      assert HandleOk(files, hdrs[k], handles[k], slots[k]);
    }
  }

  lemma NoOrphans(s: Abstract, key: seq<byte>)
    requires Attached(s) && key !in s.files
    ensures Orphaned(s.handles, key) == s.handles
  {
  }

  lemma HandlesMore(
    files: map<int, Node>, hdrs: seq<Header>, handles: seq<Handle>, slots: seq<int>, h: Header, key: seq<byte>,
      slot: int)
    requires HandlesOk(files, hdrs, handles, slots) && HandleOk(files, h, Live(key), slot)
    ensures HandlesOk(files, hdrs + [h], handles + [Live(key)], slots + [slot])
  {
  }

  /** A live handle is on a listed file, whose contents it sees. */
  lemma HandleAt(d: Image, hdrs: seq<Header>, handles: seq<Handle>, slots: seq<int>, k: nat)
    requires Sound(d) && HandlesOk(FilesOf(d), hdrs, handles, slots) && k < |handles| && handles[k].Live?
    ensures HandleOk(FilesOf(d), hdrs[k], handles[k], slots[k]) && hdrs[k].Formed() && hdrs[k].Distinct()
    ensures handles[k].key in View(d) && View(d)[handles[k].key] == FileBytes(d, hdrs[k])
  {
    assert HandleOk(FilesOf(d), hdrs[k], handles[k], slots[k]);
    assert FilesOf(d)[slots[k]].Formed();
    ViewAt(d, FilesOf(d), slots[k]);
  }

  lemma HandlesAttached(d: Image, hdrs: seq<Header>, handles: seq<Handle>, slots: seq<int>)
    requires Sound(d) && HandlesOk(FilesOf(d), hdrs, handles, slots)
    ensures Attached(Abstract(View(d), handles))
  {
    forall k | 0 <= k < |handles| && handles[k].Live? ensures handles[k].key in View(d) {
      HandleAt(d, hdrs, handles, slots, k);
    }
  }

  /**
   * The abstract state that a file system object, the headers held by its open files and their directory entries stand
   * for; none if the disk is unsound or a live handle is not on the file that it should be on.
   */
  ghost function Meaning(fs: FileSystem, hdrs: seq<Header>, handles: seq<Handle>, slots: seq<int>): Option<Abstract>
    reads fs, fs.disk, fs.freeMapFile, fs.freeMapFile.hdr, fs.directoryFile, fs.directoryFile.hdr
  {
    if fs.Valid() && HandlesOk(FilesOf(fs.disk.sectors), hdrs, handles, slots)
    then Some(Abstract(View(fs.disk.sectors), handles))
    else None
  }

  /** The named files of a file system object in good order. */
  ghost function FilesOn(fs: FileSystem): Option<Files>
    reads fs, fs.disk, fs.freeMapFile, fs.freeMapFile.hdr, fs.directoryFile, fs.directoryFile.hdr
  {
    if fs.Valid() then Some(View(fs.disk.sectors)) else None
  }

  /** The open file is on this disk and holds that header. */
  ghost predicate Holds(fs: FileSystem, file: OpenFile, h: Header)
    reads file.hdr
  {
    file.disk == fs.disk && file.hdr.Value() == h
  }

  method CreateOne(
    fs: FileSystem, name: seq<byte>, size: int, g: Header, garbage: Table,
    ghost hdrs: seq<Header>, handles: seq<Handle>, ghost slots: seq<int>)
    returns (ok: bool)
    requires Meaning(fs, hdrs, handles, slots).Some? && Storable(g) && IsCString(name) && 0 <= size <= MAX_FILE_SIZE
    modifies fs.disk
    ensures var (m, m') := (old(Meaning(fs, hdrs, handles, slots)), Meaning(fs, hdrs, handles, slots));
            m'.Some? && WithFile(m.value, Key(name), size, ok, m'.value)
  {
    AdmitsRight(fs.disk.sectors, Key(name), size);
    ghost var files := FilesOf(fs.disk.sectors);
    ghost var slot;
    ok, slot := fs.Create(name, size, g, garbage);
    if ok {
      HandlesGrow(files, hdrs, handles, slots, slot, FilesOf(fs.disk.sectors)[slot]);
    }
  }

  method RemoveOne(
    fs: FileSystem, name: seq<byte>, g: Header, garbage: Table,
    ghost hdrs: seq<Header>, handles: seq<Handle>, ghost slots: seq<int>)
    returns (ok: bool, handles': seq<Handle>)
    requires Meaning(fs, hdrs, handles, slots).Some? && Storable(g) && IsCString(name)
    modifies fs.disk
    ensures var s := old(Meaning(fs, hdrs, handles, slots)).value;
            ok == (Key(name) in s.files) && Meaning(fs, hdrs, handles', slots) == Some(Without(s, Key(name)))
  {
    ghost var files, s := FilesOf(fs.disk.sectors), Meaning(fs, hdrs, handles, slots).value;
    HandlesAttached(fs.disk.sectors, hdrs, handles, slots);
    if Key(name) !in s.files {
      NoOrphans(s, Key(name));
    }
    ghost var slot;
    ok, slot := fs.Remove(name, g, garbage);
    handles' := Orphaned(handles, Key(name));
    if ok {
      HandlesShrink(files, hdrs, handles, slots, slot);
    }
  }

  lemma MeaningMore(
    fs: FileSystem, hdrs: seq<Header>, handles: seq<Handle>, slots: seq<int>, h: Header, key: seq<byte>, slot: int)
    requires fs.Valid() && HandlesOk(FilesOf(fs.disk.sectors), hdrs, handles, slots)
    requires HandleOk(FilesOf(fs.disk.sectors), h, Live(key), slot) && key in View(fs.disk.sectors)
    ensures Meaning(fs, hdrs + [h], handles + [Live(key)], slots + [slot])
            == Some(WithHandle(Abstract(View(fs.disk.sectors), handles), key))
  {
    HandlesMore(FilesOf(fs.disk.sectors), hdrs, handles, slots, h, key, slot);
  }

  method OpenOne(
    fs: FileSystem, name: seq<byte>, g: Header, garbage: Table,
    ghost hdrs: seq<Header>, handles: seq<Handle>, ghost slots: seq<int>)
    returns (file: OpenFile?, ghost hdrs': seq<Header>, handles': seq<Handle>, ghost slots': seq<int>)
    requires Meaning(fs, hdrs, handles, slots).Some? && Storable(g) && IsCString(name)
    ensures file == null ==> hdrs' == hdrs
    ensures file != null ==> fresh(file.hdr) && file.disk == fs.disk && hdrs' == hdrs + [file.hdr.Value()]
    ensures var s := Meaning(fs, hdrs, handles, slots).value;
            (file != null) == (Key(name) in s.files)
              && Meaning(fs, hdrs', handles', slots') == Some(WithHandle(s, Key(name)))
  {
    ghost var slot;
    file, slot := fs.Open(name, g, garbage);
    if file == null {
      return null, hdrs, handles, slots;
    }
    MeaningMore(fs, hdrs, handles, slots, file.hdr.Value(), Key(name), slot);
    return file, hdrs + [file.hdr.Value()], handles + [Live(Key(name))], slots + [slot];
  }

  method WriteOne(
    fs: FileSystem, file: OpenFile, k: nat, data: seq<byte>, position: int,
    ghost hdrs: seq<Header>, handles: seq<Handle>, ghost slots: seq<int>)
    returns (n: nat)
    requires Meaning(fs, hdrs, handles, slots).Some? && Attached(Meaning(fs, hdrs, handles, slots).value)
    requires k < |handles| && handles[k].Live? && file.disk == fs.disk && k < |hdrs| && file.hdr.Value() == hdrs[k]
    requires data != [] ==> 0 <= position
    modifies fs.disk
    ensures var s := old(Meaning(fs, hdrs, handles, slots)).value;
            && n == Clamp(|data|, position, |At(s, k)|)
            && Meaning(fs, hdrs, handles, slots) == Some(WithBytes(s, k, data, position))
  {
    assert HandleOk(FilesOf(fs.disk.sectors), hdrs[k], handles[k], slots[k]);
    n := fs.Write(file, slots[k], data, position);
  }

  method ReadOne(
    fs: FileSystem, file: OpenFile, k: nat, numBytes: int, position: int,
    ghost hdrs: seq<Header>, handles: seq<Handle>, ghost slots: seq<int>)
    returns (bytes: seq<byte>)
    requires Meaning(fs, hdrs, handles, slots).Some? && Attached(Meaning(fs, hdrs, handles, slots).value)
    requires k < |handles| && handles[k].Live? && file.disk == fs.disk && k < |hdrs| && file.hdr.Value() == hdrs[k]
    requires numBytes > 0 ==> 0 <= position
    ensures bytes == Returned(At(old(Meaning(fs, hdrs, handles, slots)).value, k), position, numBytes)
  {
    assert HandleOk(FilesOf(fs.disk.sectors), hdrs[k], handles[k], slots[k]);
    bytes := fs.Read(file, slots[k], numBytes, position);
  }

  method CloseOne(
    fs: FileSystem, k: nat, ghost hdrs: seq<Header>, handles: seq<Handle>, ghost slots: seq<int>)
    returns (handles': seq<Handle>)
    requires Meaning(fs, hdrs, handles, slots).Some? && k < |handles|
    ensures var s := Meaning(fs, hdrs, handles, slots).value;
            Meaning(fs, hdrs, handles', slots) == Some(s.(handles := s.handles[k := Shut]))
  {
    handles' := handles[k := Shut];
  }

  lemma MeaningAttached(fs: FileSystem, hdrs: seq<Header>, handles: seq<Handle>, slots: seq<int>)
    requires Meaning(fs, hdrs, handles, slots).Some?
    ensures var s := Meaning(fs, hdrs, handles, slots).value; Attached(s) && s.handles == handles && |hdrs| == |handles|
  {
    HandlesAttached(fs.disk.sectors, hdrs, handles, slots);
  }

  /** A request by name. An Open that succeeds gives out a new handle. */
  method ServeName(
    fs: FileSystem, r: Request, g: Header, garbage: Table, ghost hdrs: seq<Header>, handles: seq<Handle>,
      ghost slots: seq<int>)
    returns (a: Response, file: OpenFile?, ghost hdrs': seq<Header>, handles': seq<Handle>, ghost slots': seq<int>)
    requires Storable(g) && r.Legal() && Sane(handles, r) && (r.Create? || r.Remove? || r.Open?)
    requires var m := Meaning(fs, hdrs, handles, slots); m.Some? && Attached(m.value) && m.value.handles == handles
    modifies fs.disk
    ensures file == null ==> hdrs' == hdrs
    ensures file != null ==> fresh(file.hdr) && file.disk == fs.disk && hdrs' == hdrs + [file.hdr.Value()]
    ensures var (m, m') := (old(Meaning(fs, hdrs, handles, slots)), Meaning(fs, hdrs', handles', slots'));
            m'.Some? && Run([m.value, m'.value], [r], [a])
  {
    ghost var s := Meaning(fs, hdrs, handles, slots).value;
    file, hdrs', handles', slots' := null, hdrs, handles, slots;
    var ok;
    if r.Create? {
      ok := CreateOne(fs, r.name, r.size, g, garbage, hdrs, handles, slots);
    } else if r.Remove? {
      ok, handles' := RemoveOne(fs, r.name, g, garbage, hdrs, handles, slots);
    } else {
      file, hdrs', handles', slots' := OpenOne(fs, r.name, g, garbage, hdrs, handles, slots);
      ok := file != null;
    }
    a := Answer(ok);
    RunOne(s, r, a, Meaning(fs, hdrs', handles', slots').value);
  }

  /** A request through handle `r.k`. */
  method ServeHandle(
    fs: FileSystem, r: Request, file: OpenFile, ghost hdrs: seq<Header>, handles: seq<Handle>, ghost slots: seq<int>)
    returns (a: Response, handles': seq<Handle>)
    requires r.Legal() && Sane(handles, r) && (r.Close? || r.WriteAt? || r.ReadAt?)
    requires var m := Meaning(fs, hdrs, handles, slots); m.Some? && Attached(m.value) && m.value.handles == handles
    requires |hdrs| == |handles| && file.disk == fs.disk && file.hdr.Value() == hdrs[r.k]
    modifies fs.disk
    ensures var (m, m') := (old(Meaning(fs, hdrs, handles, slots)), Meaning(fs, hdrs, handles', slots));
            m'.Some? && Run([m.value, m'.value], [r], [a])
  {
    ghost var s := Meaning(fs, hdrs, handles, slots).value;
    handles' := handles;
    if r.Close? {
      handles' := CloseOne(fs, r.k, hdrs, handles, slots);
      a := Answer(true);
    } else if r.WriteAt? {
      var n := WriteOne(fs, file, r.k, r.data, r.position, hdrs, handles, slots);
      a := Moved(n);
    } else {
      var bytes := ReadOne(fs, file, r.k, r.numBytes, r.position, hdrs, handles, slots);
      a := Got(bytes);
    }
    RunOne(s, r, a, Meaning(fs, hdrs, handles', slots).value);
  }

  /** The new open file, if any, goes behind the others. */
  method Enlist(fs: FileSystem, open: seq<OpenFile>, ghost hdrs: seq<Header>, file: OpenFile?, ghost hdrs': seq<Header>)
    returns (open': seq<OpenFile>)
    requires |open| == |hdrs| && forall k | 0 <= k < |open| :: Holds(fs, open[k], hdrs[k])
    requires if file == null then hdrs' == hdrs else file.disk == fs.disk && hdrs' == hdrs + [file.hdr.Value()]
    ensures |open'| == |hdrs'| && forall k | 0 <= k < |open'| :: Holds(fs, open'[k], hdrs'[k])
    ensures forall k | 0 <= k < |open'| :: if k < |open| then open'[k] == open[k] else open'[k] == file
  {
    open' := open;
    if file != null {
      open' := open + [file];
    }
  }

  /** One request, with all open files and handles as they then are. */
  method ServeOne(
    fs: FileSystem, r: Request, g: Header, garbage: Table,
    open: seq<OpenFile>, ghost hdrs: seq<Header>, handles: seq<Handle>, ghost slots: seq<int>)
    returns (a: Response, file: OpenFile?, ghost hdrs': seq<Header>, handles': seq<Handle>, ghost slots': seq<int>)
    requires Storable(g) && r.Legal() && Sane(handles, r) && |open| == |hdrs| == |handles|
    requires forall k | 0 <= k < |open| :: Holds(fs, open[k], hdrs[k])
    requires var m := Meaning(fs, hdrs, handles, slots); m.Some? && Attached(m.value) && m.value.handles == handles
    modifies fs.disk
    ensures file == null ==> hdrs' == hdrs
    ensures file != null ==> fresh(file.hdr) && file.disk == fs.disk && hdrs' == hdrs + [file.hdr.Value()]
    ensures var (m, m') := (old(Meaning(fs, hdrs, handles, slots)), Meaning(fs, hdrs', handles', slots'));
            m'.Some? && Run([m.value, m'.value], [r], [a])
  {
    if r.Create? || r.Remove? || r.Open? {
      a, file, hdrs', handles', slots' := ServeName(fs, r, g, garbage, hdrs, handles, slots);
      return;
    }
    file, hdrs', slots' := null, hdrs, slots;
    a, handles' := ServeHandle(fs, r, open[r.k], hdrs, handles, slots);
  }

  /**
   * Any sequence of requests is answered as the abstract file system answers it, up to the first one, if any, that asks
   * for a file above the maximum size or goes through a handle whose file was removed or that was closed.
   */
  method Serve(fs: FileSystem, requests: seq<Request>, g: Header, garbage: Table)
    returns (responses: seq<Response>, ghost trace: seq<Abstract>)
    requires fs.Valid() && Storable(g) && forall i | 0 <= i < |requests| :: requests[i].Legal()
    modifies fs.disk
    ensures |responses| <= |requests| && Run(trace, requests[..|responses|], responses)
    ensures trace[0] == Abstract(View(old(fs.disk.sectors)), []) && FilesOn(fs) == Some(trace[|responses|].files)
    ensures |responses| < |requests| ==>
              match requests[|responses|]
              case Create(_, size) => size > 3840
              case Remove(_) => false
              case Open(_) => false
              case Close(k) => k >= |trace[|responses|].handles|
              case WriteAt(k, _, _) => k >= |trace[|responses|].handles| || !trace[|responses|].handles[k].Live?
              case ReadAt(k, _, _) => k >= |trace[|responses|].handles| || !trace[|responses|].handles[k].Live?
  {
    var open: seq<OpenFile>, handles: seq<Handle> := [], [];
    ghost var hdrs, slots := [], [];
    responses, trace := [], [Meaning(fs, [], [], []).value];
    while |responses| < |requests| && Sane(handles, requests[|responses|])
      invariant Meaning(fs, hdrs, handles, slots).Some? && |open| == |hdrs|
      invariant forall k | 0 <= k < |open| :: fresh(open[k].hdr) && Holds(fs, open[k], hdrs[k])
      invariant |responses| <= |requests| && Run(trace, requests[..|responses|], responses)
      invariant trace[0] == Abstract(View(old(fs.disk.sectors)), [])
      invariant Some(trace[|responses|]) == Meaning(fs, hdrs, handles, slots)
      decreases |requests| - |responses|
    {
      MeaningAttached(fs, hdrs, handles, slots);
      ghost var before := hdrs;
      var a, file;
      a, file, hdrs, handles, slots := ServeOne(fs, requests[|responses|], g, garbage, open, hdrs, handles, slots);
      open := Enlist(fs, open, before, file, hdrs);
      ghost var s := Meaning(fs, hdrs, handles, slots).value;
      RunOn(trace, requests, responses, a, s);
      trace := trace + [s];
      responses := responses + [a];
    }
  }
}
