/** Deletion requests over several groups (pkg/broker/coordinator.go, DeleteGroups). */
module GroupDeletion {
  import opened Bytes
  import opened Wrappers
  import opened Sorting
  import opened GroupMachine

  /** How the store behaves while one group is deleted. */
  datatype Turn = Turn(fetchOk: bool, write: Write)

  /** The answers after which a group is gone. */
  predicate Removes(code: Code) {
    code == NONE || code == GROUP_ID_NOT_FOUND
  }

  /** Width of the white-space character that `s` starts with, in UTF-8; 0 if it starts with none. */
  function SpaceWidth(s: bytes): (n: nat)
    ensures n <= |s|
  {
    if |s| >= 1 && (9 <= s[0] <= 13 || s[0] == 0x20) then 1
    else if |s| >= 2 && s[0] == 0xC2 && s[1] in {0x85, 0xA0} then 2
    else if |s| >= 3 && s[..3] in {[0xE1, 0x9A, 0x80], [0xE2, 0x81, 0x9F], [0xE3, 0x80, 0x80]} then 3
    else if |s| >= 3 && s[..2] == [0xE2, 0x80] && (0x80 <= s[2] <= 0x8A || s[2] in {0xA8, 0xA9, 0xAF}) then 3
    else 0
  }

  /** A group id of white space only. */
  predicate Blank(s: bytes) {
    s == [] || (SpaceWidth(s) > 0 && Blank(s[SpaceWidth(s)..]))
  }

  /** One turn. Nothing is written but the absence of the record, so it does not matter whether the
      store clones. */
  function Deleted(c: Cell, turn: Turn): Cell {
    DeleteGroup(c, Io(turn.fetchOk, turn.write, true))
  }

  /** Group `id`, first `c`, after `k` turns. */
  function After(c: Cell, id: Name, ids: seq<Name>, turns: seq<Turn>, k: nat): Cell
    requires k <= |ids| == |turns|
  {
    if k == 0 then c
    else
      var before := After(c, id, ids, turns, k - 1);
      if ids[k - 1] == id && !Blank(id) then Deleted(before, turns[k - 1]) else before
  }

  /** Answer of turn `i`, whose group was first `c`. */
  function Answer(c: Cell, ids: seq<Name>, turns: seq<Turn>, i: nat): Code
    requires i < |ids| == |turns|
  {
    var before := After(c, ids[i], ids, turns, i);
    if Blank(ids[i]) then INVALID_REQUEST
    else if !turns[i].fetchOk then UNKNOWN_SERVER_ERROR
    else if before.rec.None? then GROUP_ID_NOT_FOUND
    else if turns[i].write.Done? then NONE
    else UNKNOWN_SERVER_ERROR
  }

  /** Group `id` was answered as gone in a turn before `k`. */
  ghost predicate RemovedBefore(c: Cell, id: Name, ids: seq<Name>, turns: seq<Turn>, k: nat)
    requires k <= |ids| == |turns|
  {
    exists i :: 0 <= i < k && ids[i] == id && Removes(Answer(c, ids, turns, i))
  }

  /** A group answered NONE or GROUP_ID_NOT_FOUND is gone from memory and from the store, and stays
      so whatever the later turns of the request do; any other keeps its memory and its record, except
      that a delete which failed may have reached the store. */
  lemma {:induction false} RemovedIsGone(c: Cell, id: Name, ids: seq<Name>, turns: seq<Turn>, k: nat)
    requires k <= |ids| == |turns|
    ensures var after := After(c, id, ids, turns, k);
            if RemovedBefore(c, id, ids, turns, k) then after == Cell(None, None)
            else after == c || after == c.(rec := None)
  {
    if k > 0 {
      RemovedIsGone(c, id, ids, turns, k - 1);
      hide Blank;
    }
  }

  /** What a deletion request comes to for one group: it is answered NONE at most once, and only if
      it was there; no other answer comes after it is gone than that it is not found or that the
      store failed. Ids that are blank or not named are left alone. */
  lemma DeletionMeans(c: Cell, id: Name, ids: seq<Name>, turns: seq<Turn>)
    requires |ids| == |turns|
    ensures RemovedBefore(c, id, ids, turns, |ids|) ==> After(c, id, ids, turns, |ids|) == Cell(None, None)
    ensures forall i :: 0 <= i < |ids| && ids[i] == id && Answer(c, ids, turns, i) == NONE
                        ==> c.rec.Some? && !RemovedBefore(c, id, ids, turns, i)
    ensures id !in ids || Blank(id) ==> After(c, id, ids, turns, |ids|) == c
  {
    hide Blank;
    RemovedIsGone(c, id, ids, turns, |ids|);
    forall i | 0 <= i < |ids| && ids[i] == id && Answer(c, ids, turns, i) == NONE
      ensures c.rec.Some? && !RemovedBefore(c, id, ids, turns, i)
    {
      RemovedIsGone(c, id, ids, turns, i);
    }
    if id !in ids || Blank(id) { Untouched(c, id, ids, turns, |ids|); }
  }

  lemma {:induction false} Untouched(c: Cell, id: Name, ids: seq<Name>, turns: seq<Turn>, k: nat)
    requires k <= |ids| == |turns| && (id !in ids || Blank(id))
    ensures After(c, id, ids, turns, k) == c
  {
    if k > 0 { Untouched(c, id, ids, turns, k - 1); }
  }
}
