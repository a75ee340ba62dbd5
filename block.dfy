/** `/api/block`: `GET` tells whether the caller blocks a user; `POST`
    blocks (upsert of the pair) or unblocks (delete of the pair). */
module Block {
  import opened Common
  import opened Store

  /** The unique constraint on `(blocker_user_id, blocked_user_id)`. */
  predicate PairsUnique(blocks: seq<UserBlock>) {
    forall i, j | 0 <= i < j < |blocks| :: blocks[i] != blocks[j]
  }

  /** The rows of one pair. */
  function RowsOf(blocks: seq<UserBlock>, pair: UserBlock): (r: seq<UserBlock>)
    ensures |r| == 0 <==> pair !in blocks
  {
    var r := Filter(blocks, (b: UserBlock) => b == pair);
    assert pair in blocks ==> pair in r;
    assert r != [] ==> r[0] in r;
    r
  }

  /** Under the unique constraint a pair has at most one row. */
  lemma {:induction false} AtMostOneRow(blocks: seq<UserBlock>, pair: UserBlock)
    requires PairsUnique(blocks)
    ensures |RowsOf(blocks, pair)| <= 1
  {
    if blocks != [] {
      var rest := blocks[1..];
      assert PairsUnique(rest) by {
        forall i, j | 0 <= i < j < |rest| ensures rest[i] != rest[j] {
          assert rest[i] == blocks[i + 1] && rest[j] == blocks[j + 1];
        }
      }
      AtMostOneRow(rest, pair);
      if blocks[0] == pair {
        assert pair !in rest by {
          forall k | 0 <= k < |rest| ensures rest[k] != pair {
            assert rest[k] == blocks[k + 1];
          }
        }
      }
    }
  }

  /** `GET ?user_id=target`. `queryError` is an error of the lookup. */
  function Get(blocks: seq<UserBlock>, session: Option<Caller>, target: Option<string>,
               queryError: Option<string>): (r: Reply<bool>)
    requires PairsUnique(blocks)
    ensures session.None? ==> r == Err(401, Text("Unauthorized"))
    ensures session.Some? && !Truthy(target) ==> r == Err(400, Text("user_id required"))
    ensures session.Some? && Truthy(target) && queryError.Some? ==> r == Err(400, StoreError(queryError.value))
    ensures r.Ok? <==> session.Some? && Truthy(target) && queryError.None?
    ensures r.Ok? ==> (r.value <==> UserBlock(session.value.id, target.value) in blocks)
  {
    if session.None? then Err(401, Text("Unauthorized"))
    else if !Truthy(target) then Err(400, Text("user_id required"))
    else if queryError.Some? then Err(400, StoreError(queryError.value))
    else
      // `.maybeSingle()`: the pair's row, or null
      var rows := RowsOf(blocks, UserBlock(session.value.id, target.value));
      AtMostOneRow(blocks, UserBlock(session.value.id, target.value));
      Ok(|rows| == 1)
  }

  datatype BlockAction = DoBlock | DoUnblock

  /** The JSON body: `{ user_id, action? }`. */
  datatype BlockBody = BlockBody(userId: Field<string>, action: Field<string>)

  datatype BlockInput = BlockInput(target: UserId, action: BlockAction)

  /** The zod schema: a UUID target and an action that is "block" (the
      default when absent) or "unblock". */
  function ParseBody(json: Json<BlockBody>): (r: Option<BlockInput>)
    ensures r.Some? <==>
      json.Object? && json.body.userId.Val? && IsUuid(json.body.userId.v) &&
      (json.body.action.Absent? ||
       json.body.action == Val("block") || json.body.action == Val("unblock"))
    ensures r.Some? ==>
      r.value.target == json.body.userId.v &&
      (r.value.action == DoUnblock <==> json.body.action == Val("unblock"))
  {
    if !json.Object? then None
    else
      var b := json.body;
      var target := Required(b.userId, IsUuid);
      var action :=
        match b.action
        case Absent => Some(DoBlock)
        case Val(s) => if s == "block" then Some(DoBlock) else if s == "unblock" then Some(DoUnblock) else None
        case _ => None;
      if target.None? || action.None? then None
      else Some(BlockInput(target.value, action.value))
  }

  /** `.upsert(pair, { onConflict: "blocker_user_id,blocked_user_id" })`: an
      existing row of the pair is rewritten with the same values, otherwise
      the pair is added. */
  function Upsert(blocks: seq<UserBlock>, pair: UserBlock): (r: seq<UserBlock>)
    ensures forall b :: b in r <==> b in blocks || b == pair
  {
    if pair in blocks then blocks else blocks + [pair]
  }

  /** `.delete().eq("blocker_user_id", ..).eq("blocked_user_id", ..)`. */
  function Delete(blocks: seq<UserBlock>, pair: UserBlock): (r: seq<UserBlock>)
    ensures forall b :: b in r <==> b in blocks && b != pair
  {
    Filter(blocks, (b: UserBlock) => b != pair)
  }

  /** The handler. The delete or upsert fails with `writeError`. */
  method Post(db: Db, session: Option<Caller>, json: Json<BlockBody>, writeError: Option<string>)
    returns (r: Reply<()>)
    requires PairsUnique(db.blocks)
    modifies db`blocks
    ensures PairsUnique(db.blocks)
    ensures session.None? ==> r == Err(401, Text("Unauthorized"))
    ensures session.Some? && ParseBody(json).None? ==> r == Err(400, SchemaIssues)
    ensures session.Some? && ParseBody(json).Some? && ParseBody(json).value.target == session.value.id ==>
              r == Err(400, Text("Cannot block yourself"))
    ensures r.Ok? <==>
              session.Some? && ParseBody(json).Some? &&
              ParseBody(json).value.target != session.value.id && writeError.None?
    ensures r.Err? ==> db.blocks == old(db.blocks)
    ensures r.Ok? && ParseBody(json).value.action == DoBlock ==>
              var pair := UserBlock(session.value.id, ParseBody(json).value.target);
              db.blocks == Upsert(old(db.blocks), pair) && pair in db.blocks &&
              forall b: UserBlock | b.blockerUserId != session.value.id :: b in db.blocks <==> b in old(db.blocks)
    ensures r.Ok? && ParseBody(json).value.action == DoUnblock ==>
              var pair := UserBlock(session.value.id, ParseBody(json).value.target);
              db.blocks == Delete(old(db.blocks), pair) && pair !in db.blocks &&
              forall b: UserBlock | b.blockerUserId != session.value.id :: b in db.blocks <==> b in old(db.blocks)
  {
    if session.None? {
      return Err(401, Text("Unauthorized"));
    }
    var me := session.value;
    var parsed := ParseBody(json);
    if parsed.None? {
      return Err(400, SchemaIssues);
    }
    var input := parsed.value;
    if input.target == me.id {
      return Err(400, Text("Cannot block yourself"));
    }
    if writeError.Some? {
      return Err(400, StoreError(writeError.value));
    }
    var pair := UserBlock(me.id, input.target);
    if input.action == DoUnblock {
      db.blocks := Delete(db.blocks, pair);
      FilterKeepsUnique(old(db.blocks), pair);
      return Ok(());
    }
    // upsert on (blocker, blocked): an existing row is rewritten with the same values
    UpsertKeepsUnique(db.blocks, pair);
    db.blocks := Upsert(db.blocks, pair);
    r := Ok(());
  }

  /** Deleting a pair keeps the other pairs unique. */
  lemma {:induction false} FilterKeepsUnique(blocks: seq<UserBlock>, pair: UserBlock)
    requires PairsUnique(blocks)
    ensures PairsUnique(Delete(blocks, pair))
  {
    if blocks != [] {
      var rest := blocks[1..];
      assert PairsUnique(rest) by {
        forall i, j | 0 <= i < j < |rest| ensures rest[i] != rest[j] {
          assert rest[i] == blocks[i + 1] && rest[j] == blocks[j + 1];
        }
      }
      FilterKeepsUnique(rest, pair);
      assert blocks[0] !in rest by {
        forall k | 0 <= k < |rest| ensures rest[k] != blocks[0] {
          assert rest[k] == blocks[k + 1];
        }
      }
    }
  }

  /** Adding a missing pair keeps the pairs unique. */
  lemma UpsertKeepsUnique(blocks: seq<UserBlock>, pair: UserBlock)
    requires PairsUnique(blocks)
    ensures PairsUnique(Upsert(blocks, pair))
  {
    var r := Upsert(blocks, pair);
    if pair !in blocks {
      forall i, j | 0 <= i < j < |r| ensures r[i] != r[j] {
        assert r[i] == blocks[i];
        if j < |blocks| {
          assert r[j] == blocks[j];
        }
      }
    }
  }

  /** Blocking twice is blocking once, and leaves exactly one row for the pair. */
  lemma BlockIdempotent(blocks: seq<UserBlock>, pair: UserBlock)
    requires PairsUnique(blocks)
    ensures Upsert(Upsert(blocks, pair), pair) == Upsert(blocks, pair)
    ensures |RowsOf(Upsert(blocks, pair), pair)| == 1
  {
    UpsertKeepsUnique(blocks, pair);
    AtMostOneRow(Upsert(blocks, pair), pair);
  }

  /** Unblocking twice is unblocking once, and leaves no row for the pair. */
  lemma UnblockIdempotent(blocks: seq<UserBlock>, pair: UserBlock)
    ensures Delete(Delete(blocks, pair), pair) == Delete(blocks, pair)
    ensures RowsOf(Delete(blocks, pair), pair) == []
  {
    FilterIdempotent(blocks, (b: UserBlock) => b != pair);
  }

  lemma {:induction false} FilterIdempotent<T>(s: seq<T>, keep: T -> bool)
    ensures Filter(Filter(s, keep), keep) == Filter(s, keep)
  {
    if s != [] {
      FilterIdempotent(s[1..], keep);
    }
  }
}
