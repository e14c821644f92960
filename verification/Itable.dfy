/** kernel/fs.c: iget(), ialloc(), ilock() and iput() in place on the inode table. */
module Itable {
  import opened Common
  import opened ItableSpec

  class Table {
    var entry: seq<Entry>                  // itable.inode
    var disk: seq<Dinode>                  // the inodes as bread() sees them
    ghost var q: State

    ghost predicate Valid()
      reads this
    {
      Inv(q) && entry == q.entry && disk == q.disk
    }

    /** iinit() */
    constructor (n: nat, d: seq<Dinode>)
      ensures Valid() && |entry| == n && disk == d && forall e :: 0 <= e < n ==> entry[e].ref == 0
    {
      entry, disk := seq(n, _ => Entry(0, 0, false, Dinode(0, 0, 0))), d;
      q := State(seq(n, _ => Entry(0, 0, false, Dinode(0, 0, 0))), d, seq(n, _ => {}), seq(n, _ => None),
                 seq(n, _ => false), seq(n, _ => Normal), seq(n, _ => {}), {});
      new;
      forall e | 0 <= e < n ensures EntryOk(q, e) { }
    }

    /** iget(): the entry of an inode in the table, or else the first free one; false is its panic. */
    method Iget(t: nat, inum: nat) returns (found: bool, ip: nat)
      requires Valid() && inum < |disk| && forall e :: 0 <= e < |entry| ==> t !in q.holders[e]
      modifies this`entry, this`q
      ensures Valid() && (found <==>
                exists e :: 0 <= e < |old(entry)| && (Holds(old(entry)[e], inum) || old(entry)[e].ref == 0))
      ensures !found ==> q == old(q)
      ensures found ==> Shape(old(q)) && ip < |old(entry)| == |entry| && entry[ip].ref > 0 && entry[ip].inum == inum
      ensures found ==>
                if Holds(old(entry)[ip], inum) then q == Share(old(q), ip, t)
                else q == Recycle(old(q), ip, t, inum) && Absent(old(entry), inum)
      ensures found && !Holds(old(entry)[ip], inum) ==>
                old(entry)[ip].ref == 0 && forall e :: 0 <= e < ip ==> old(entry)[e].ref > 0
    {
      hide Inv;
      Shaped(q);
      var empty: nat := |entry|;
      ip := 0;
      while ip < |entry|
        invariant 0 <= ip <= |entry| && entry == old(entry) && q == old(q)
        invariant forall e :: 0 <= e < ip ==> !Holds(entry[e], inum)
        invariant empty <= |entry| && (empty < |entry| ==> empty < ip && entry[empty].ref == 0)
        invariant forall e :: 0 <= e < ip && e < empty ==> entry[e].ref > 0
      {
        if entry[ip].ref > 0 && entry[ip].inum == inum {
          StepKeeps(q, Shared(ip, t));
          entry := entry[ip := entry[ip].(ref := entry[ip].ref + 1)];
          q := Share(q, ip, t);
          return true, ip;
        }
        if empty == |entry| && entry[ip].ref == 0 {
          empty := ip;
        }
        ip := ip + 1;
      }
      if empty == |entry| {
        return false, 0;
      }
      ip := empty;
      StepKeeps(q, Recycled(ip, t, inum));
      entry := entry[ip := entry[ip].(inum := inum, ref := 1, valid := false)];
      q := Recycle(q, ip, t, inum);
      return true, ip;
    }

    /** The search of ialloc(): the first inode of type 0 is given a type and cleared on disk. */
    method Ialloc(kind: nat) returns (found: bool, inum: nat)
      requires Valid() && kind != 0
      modifies this`disk, this`q
      ensures Valid() && (found <==> exists i :: 1 <= i < |old(disk)| && old(disk)[i].kind == 0)
      ensures found ==>
                && 1 <= inum < |old(disk)| && old(disk)[inum].kind == 0 && q == Allocate(old(q), inum, kind)
                && forall i :: 1 <= i < inum ==> old(disk)[i].kind != 0
      ensures !found ==> q == old(q)
    {
      hide Inv;
      inum := 1;
      while inum < |disk|
        invariant 1 <= inum && disk == old(disk) && q == old(q) && forall i :: 1 <= i < inum && i < |disk| ==>
                    disk[i].kind != 0
      {
        if disk[inum].kind == 0 {
          AllocateKeeps(q, inum, kind);
          disk := disk[inum := Dinode(kind, 0, 0)];
          q := Allocate(q, inum, kind);
          return true, inum;
        }
        inum := inum + 1;
      }
      return false, 0;
    }

    /** ilock() once ip->lock is free: afterwards the holder sees the inode on disk.  False is its panic
        on an inode without a type. */
    method Ilock(t: nat, ip: nat) returns (ok: bool)
      requires Valid() && ip < |entry| && t in q.holders[ip] && t !in q.leaving[ip] && q.lock[ip] == None
      modifies this`entry, this`q
      ensures Valid() && Shape(old(q)) && Shape(q) && |entry| == |old(entry)|
              && entry[ip].inum == old(entry)[ip].inum < |disk| && disk == old(disk)
      ensures ok <==> old(entry)[ip].valid || disk[entry[ip].inum].kind != 0
      ensures ok ==> entry[ip].valid && entry[ip].mem == disk[entry[ip].inum] && q.lock[ip] == Some(t) && !q.dirty[ip]
      ensures ok ==> entry == old(entry)[ip := entry[ip]]
    {
      hide Inv;
      Shaped(q);
      EntryAt(q, ip);
      StepKeeps(q, Locked(ip, t));
      q := Lock(q, ip, t, Normal);
      if !entry[ip].valid {
        if disk[entry[ip].inum].kind == 0 {
          return false;
        }
        StepKeeps(q, Loaded(ip));
        entry := entry[ip := entry[ip].(mem := disk[entry[ip].inum], valid := true)];
        q := Load(q, ip);
      }
      return true;
    }

    /** iput() up to its window: drops the reference, or, for the last one to an inode without links,
        takes the lock (which is free) and leaves the rest to Window and Leave. */
    method Iput(t: nat, ip: nat) returns (window: bool)
      requires Valid() && ip < |entry| && t in q.holders[ip] && t !in q.leaving[ip] && q.lock[ip] != Some(t)
      modifies this`entry, this`q
      ensures Valid() && Shape(old(q)) && old(entry)[ip].ref > 0 && window == LastUnlinked(old(entry)[ip])
      ensures window ==> old(q).lock[ip] == None && q == Lock(old(q), ip, t, Freeing)
      ensures !window ==> q == Drop(old(q), ip, t)
    {
      hide Inv;
      Shaped(q);
      EntryAt(q, ip);
      Referred(q, ip, t);
      if entry[ip].ref == 1 && entry[ip].valid && entry[ip].mem.nlink == 0 {
        LastIsUnlocked(q, ip, t);
        StepKeeps(q, LastPut(ip, t));
        q := Lock(q, ip, t, Freeing);
        return true;
      }
      StepKeeps(q, Dropped(ip, t));
      entry := entry[ip := entry[ip].(ref := entry[ip].ref - 1)];
      q := Drop(q, ip, t);
      return false;
    }

    /** The window of iput() after itrunc(): type 0 to disk, not valid, unlock.  Other processes may run
        between the three; here they are one after the other. */
    method Window(t: nat, ip: nat)
      requires Valid() && ip < |entry| && Shape(q) && q.phase[ip] == Freeing && q.lock[ip] == Some(t)
      modifies this`entry, this`disk, this`q
      ensures Valid() && Shape(old(q)) && old(entry)[ip].inum < |old(disk)|
      ensures q == Close(Clear(Free(old(q), ip), ip), ip)
      ensures Shape(q) && |entry| == |old(entry)| && entry[ip].inum < |disk| && disk[entry[ip].inum].kind == 0
      ensures !entry[ip].valid && q.lock[ip] == None && t in q.leaving[ip]
    {
      hide Inv;
      EntryAt(q, ip);
      HolderRef(q, ip);
      StepKeeps(q, Freed(ip));
      var d := entry[ip].mem.(kind := 0);
      entry := entry[ip := entry[ip].(mem := d)];
      disk := disk[entry[ip].inum := d];
      q := Free(q, ip);
      StepKeeps(q, Cleared(ip));
      entry := entry[ip := entry[ip].(valid := false)];
      q := Clear(q, ip);
      StepKeeps(q, Closed(ip));
      q := Close(q, ip);
    }

    /** The end of iput() after its window: ip->ref--, whatever the entry holds by now. */
    method Leave(t: nat, ip: nat) returns (ghost orphaned: bool)
      requires Valid() && ip < |entry| && t in q.leaving[ip]
      modifies this`entry, this`q
      ensures Valid() && Shape(old(q)) && old(entry)[ip].ref > 0 && q == Drop(old(q), ip, t)
      ensures orphaned <==> Orphan(q, old(entry)[ip].inum)
      ensures old(entry)[ip].valid && old(entry)[ip].inum !in old(q).marked ==>
                (orphaned <==> LastUnlinked(old(entry)[ip]))
    {
      hide Inv;
      Shaped(q);
      EntryAt(q, ip);
      Referred(q, ip, t);
      StepKeeps(q, Left(ip, t));
      if entry[ip].valid && entry[ip].inum !in q.marked { TailOrphansExactly(q, ip, t); }
      orphaned := Orphan(Drop(q, ip, t), entry[ip].inum);
      entry := entry[ip := entry[ip].(ref := entry[ip].ref - 1)];
      q := Drop(q, ip, t);
    }
  }

  predicate Holds(x: Entry, inum: nat) { x.ref > 0 && x.inum == inum }

  ghost predicate Absent(entry: seq<Entry>, inum: nat) {
    forall e :: 0 <= e < |entry| ==> !Holds(entry[e], inum)
  }

  lemma Shaped(s: State)
    requires Inv(s)
    ensures Shape(s)
  {
  }

  lemma EntryAt(s: State, e: nat)
    requires Inv(s) && e < |s.entry|
    ensures EntryOk(s, e)
  {
  }

  lemma HolderRef(s: State, e: nat)
    requires Shape(s) && e < |s.entry| && EntryOk(s, e) && s.phase[e] != Normal
    ensures s.lock[e].Some? && s.entry[e].ref > 0 && s.entry[e].inum < |s.disk|
  {
    Referred(s, e, s.lock[e].value);
  }

  lemma AllocateKeeps(s: State, inum: nat, kind: nat)
    requires Inv(s) && inum < |s.disk| && s.disk[inum].kind == 0 && kind != 0
    ensures Inv(Allocate(s, inum, kind))
  {
    if |s.entry| > 0 {
      StepKeeps(s, Allocated(0, inum, kind));
    }
  }
}
