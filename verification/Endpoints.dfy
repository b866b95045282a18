/** The code at the two ends that moves an id from one place of Sync to the next: the
    client's announcing callback and its lookup on a data stream (client.cpp), and the
    server's worker (server.cpp). */
module Endpoints {
  import opened Bytes
  import opened FindFiles
  import opened Framing
  import opened Sync
  import opened Traversal
  import opened Wrappers

  class Client {
    var fileInfos: map<nat, Chunk>
    var wire: Chunk                  // handed to the control stream so far
    var work: nat                    // data streams put to work by the pool

    /** The client's table in a state of the whole run. */
    ghost predicate Agrees(s: State)
      reads this
    {
      fileInfos.Keys == s.infos.Keys
    }

    constructor ()
      ensures wire == [] && work == 0 && forall tree :: Agrees(Start(tree))
    {
      fileInfos, wire, work := map[], [], 0;
    }

    /** The callback of FindFiles for the record `r`; the program exits on an id that is
        taken. */
    method Announce(id: nat, file: Chunk, ghost r: Record, ghost s: State) returns (exits: bool)
      requires Agrees(s) && r.id == id
      modifies `fileInfos, `wire
      ensures exits <==> id in s.infos
      ensures exits ==> fileInfos == old(fileInfos) && wire == old(wire)
      ensures !exits ==> Agrees(OnAnnounce(s, r)) && fileInfos == old(fileInfos)[id := file] && wire == old(wire) + FrameOne(file)
    {
      exits := id in fileInfos;
      if !exits {
        var size := Cast32(|file|);
        var buffers := [Encode(size, SIZE_BYTES), file[..size]];
        fileInfos := fileInfos[id := file];
        NoSuffix(buffers[1]);
        assert Flatten(buffers) == FrameOne(file) by {
          assert Flatten(buffers[1..]) == buffers[1] + Flatten(buffers[1..][1..]);
        }
        wire := wire + Flatten(buffers);
      }
    }

    /** Lines 99 to 119: the entry is only erased once its file could be opened. */
    method OpenRequested(id: nat, opens: bool, ghost source: map<Path, Chunk>, ghost s: State) returns (reading: bool)
      requires Agrees(s) && id in s.jobs && (opens <==> s.jobs[id].record.path in source)
      modifies `fileInfos, `work
      ensures Agrees(OnAsk(source, s, id))
      ensures reading <==> id in OnAsk(source, s, id).jobs
      ensures work == old(work) + if reading then 1 else 0
    {
      reading := false;
      if id in fileInfos {
        if !opens {
          return;
        }
        work := work + 1;
        fileInfos := fileInfos - {id};
        reading := true;
      }
    }

    /** Lines 197 to 200: an acknowledged entry is erased. */
    method Acknowledged(id: nat, ghost s: State)
      requires Agrees(s) && s.acks != [] && s.acks[0] == id
      modifies `fileInfos
      ensures Agrees(OnAck(s))
    {
      if id in fileInfos {
        fileInfos := fileInfos - {id};
      }
    }
  }

  class Server {
    var fs: Tree
    var acks: seq<nat>
    var jobs: map<nat, Job>
    ghost var silent: multiset<nat>
    ghost var refused: multiset<nat>

    /** The server's part of a state of the whole run. */
    ghost predicate Agrees(s: State)
      reads this
    {
      fs == s.fs && acks == s.acks && jobs == s.jobs && silent == s.silent && refused == s.refused
    }

    constructor (tree: Tree)
      ensures Agrees(Start(tree))
    {
      fs, acks, jobs := tree, [], map[];
      silent, refused := multiset{}, multiset{};
    }

    /** QSyncServerWorkerCallback; setting a time and creating a directory are separate
        calls on the file system. */
    method WorkerCallback(r: Record, now: int, ghost s: State)
      requires Agrees(s)
      modifies this
      ensures Agrees(Decide(s, r, now))
    {
      if !NeedsUpdate(fs, r) {
        acks := acks + [r.id];
      } else if r.kind == Directory {
        if r.path !in fs {
          if r.path == [] || !IsFolderAt(fs, Parent(r.path)) {
            refused := refused + multiset{r.id};
            return;
          }
          fs := TouchParent(fs, r.path, now)[r.path := Folder(now)];
        }
        fs := fs[r.path := Folder(r.seconds * TICKS)];
        silent := silent + multiset{r.id};
        assert fs == UpdatedFolder(s.fs, r, now).value;
      } else {
        var before := if r.path in fs then Some(fs[r.path]) else None;
        jobs := jobs[r.id := Job(r, before, Asked)];
      }
    }
  }
}
