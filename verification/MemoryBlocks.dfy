/** The working-state blocks agents append to (robothor/crm/dal.py). */
module MemoryBlocks {
  import opened Sequences
  import opened Text

  datatype Block = Block(content: string, writes: nat)

  /** Tenant and block name. */
  type Key = (string, string)

  /** `lines[-maxEntries:]` under the guard `len(lines) > maxEntries`, for every integer. */
  function Trimmed(lines: seq<string>, maxEntries: int): seq<string> {
    if |lines| <= maxEntries then lines
    else if maxEntries > 0 then lines[|lines| - maxEntries..]
    else if -maxEntries <= |lines| then lines[-maxEntries..]
    else []
  }

  /** The lines a stored content is read as: `content.strip().split("\n")`, none if it is empty. */
  function Queue(content: string): seq<string> {
    if content == "" then [] else Lines(Strip(content))
  }

  function Entry(stamp: string, entry: string): string {
    "[" + stamp + "] " + entry
  }

  function Content(blocks: map<Key, Block>, key: Key): string {
    if key in blocks then blocks[key].content else ""
  }

  function Appended(content: string, line: string, maxEntries: int): string {
    Unlines(Trimmed(Queue(content) + [line], maxEntries))
  }

  /** The upserted table: the new content, and one more write. */
  function AppendSpec(blocks: map<Key, Block>, key: Key, line: string, maxEntries: int): map<Key, Block> {
    blocks[key := Block(Appended(Content(blocks, key), line, maxEntries), if key in blocks then blocks[key].writes + 1 else 1)]
  }

  class BlockTable {
    var blocks: map<Key, Block>

    constructor ()
      ensures blocks == map[]
    {
      blocks := map[];
    }

    method Trim(all: seq<string>, maxEntries: int) returns (lines: seq<string>)
      ensures lines == Trimmed(all, maxEntries)
    {
      lines := all;
      if |lines| > maxEntries {
        if maxEntries > 0 {
          lines := lines[|lines| - maxEntries..];
        } else if -maxEntries <= |lines| {
          lines := lines[-maxEntries..];
        } else {
          lines := [];
        }
      }
    }

    method ReadLines(key: Key) returns (lines: seq<string>)
      ensures lines == Queue(Content(blocks, key))
    {
      lines := [];
      if key in blocks && blocks[key].content != "" {
        lines := Lines(Strip(blocks[key].content));
      }
    }

    method AppendToBlock(tenant: string, name: string, entry: string, stamp: string, maxEntries: int, fails: bool)
      returns (ok: bool)
      modifies this
      ensures ok == !fails
      ensures fails ==> blocks == old(blocks)
      ensures !fails ==> blocks == AppendSpec(old(blocks), (tenant, name), Entry(stamp, entry), maxEntries)
    {
      var key := (tenant, name);
      var line := Entry(stamp, entry);
      var lines := ReadLines(key);
      lines := Trim(lines + [line], maxEntries);
      if fails {
        return false;
      }
      var writes := if key in blocks then blocks[key].writes + 1 else 1;
      blocks := blocks[key := Block(Unlines(lines), writes)];
      return true;
    }
  }

  // ---- The trimming ----

  /** The limit holds exactly for limits of at least one: zero never trims, a negative one cuts from
      the front of the list instead. */
  lemma TrimBoundsIff(lines: seq<string>, maxEntries: int)
    requires lines != []
    ensures |Trimmed(lines, maxEntries)| <= maxEntries <==> maxEntries >= 1
    ensures maxEntries >= 1 ==> Trimmed(lines, maxEntries) == LastN(lines, maxEntries)
    ensures Trimmed(lines, 0) == lines
  {
  }

  // ---- One append ----

  /** What is stored reads back as the lines that were joined exactly when no line is broken and the
      ends carry ink for `strip` to stop at. */
  lemma StoredLinesReadBackIff(lines: seq<string>)
    requires lines != [] && Unlines(lines) != "" && forall k :: 0 <= k < |lines| ==> '\n' !in lines[k]
    ensures Queue(Unlines(lines)) == lines <==> !IsSpace(Unlines(lines)[0]) && !IsSpace(Unlines(lines)[|Unlines(lines)| - 1])
  {
    var s := Unlines(lines);
    UnlinesThenLines(lines);
    if Queue(s) == lines {
      LinesThenUnlines(Strip(s));
      assert Strip(s) == s;
    }
  }

  predicate AllTidy(lines: seq<string>) {
    forall k :: 0 <= k < |lines| ==> Tidy(lines[k])
  }

  /** On tidy lines an append is a push into a queue of the last `maxEntries` lines. */
  lemma AppendIsBoundedPush(content: string, line: string, maxEntries: int)
    requires maxEntries >= 1 && AllTidy(Queue(content)) && Tidy(line)
    ensures Queue(Appended(content, line, maxEntries)) == LastN(Queue(content) + [line], maxEntries)
    ensures AllTidy(Queue(Appended(content, line, maxEntries)))
  {
    var lines := Trimmed(Queue(content) + [line], maxEntries);
    TrimBoundsIff(Queue(content) + [line], maxEntries);
    UnlinesIsStripped(lines);
    StoredLinesReadBackIff(lines);
  }

  // ---- Any number of appends ----

  function AppendAll(content: string, lines: seq<string>, maxEntries: int): string
    decreases |lines|
  {
    if lines == [] then content else AppendAll(Appended(content, lines[0], maxEntries), lines[1..], maxEntries)
  }

  lemma LastNAgain(a: seq<string>, b: seq<string>, n: nat)
    ensures LastN(LastN(a, n) + b, n) == LastN(a + b, n)
  {
  }

  /** The abstract queue: push, then forget all but the last `n`. */
  function PushAll(queue: seq<string>, lines: seq<string>, n: nat): seq<string>
    decreases |lines|
  {
    if lines == [] then queue else PushAll(LastN(queue + [lines[0]], n), lines[1..], n)
  }

  /** A queue of at most `n` ends up with the last `n` of everything it ever held. */
  lemma {:induction false} PushAllKeepsLast(queue: seq<string>, lines: seq<string>, n: nat)
    requires |queue| <= n
    ensures PushAll(queue, lines, n) == LastN(queue + lines, n)
    decreases |lines|
  {
    if lines == [] {
      assert queue + lines == queue;
    } else {
      PushAllKeepsLast(LastN(queue + [lines[0]], n), lines[1..], n);
      LastNAgain(queue + [lines[0]], lines[1..], n);
      assert queue + lines == queue + [lines[0]] + lines[1..];
    }
  }

  /** Any sequence of tidy appends to a block refines the bounded queue. */
  lemma {:induction false} BlockRefinesQueue(content: string, lines: seq<string>, maxEntries: int)
    requires maxEntries >= 1 && AllTidy(Queue(content)) && AllTidy(lines)
    ensures Queue(AppendAll(content, lines, maxEntries)) == PushAll(Queue(content), lines, maxEntries)
    decreases |lines|
  {
    if lines != [] {
      AppendIsBoundedPush(content, lines[0], maxEntries);
      BlockRefinesQueue(Appended(content, lines[0], maxEntries), lines[1..], maxEntries);
    }
  }

  /** The lines that stamped entries make. */
  function EntryLines(stamped: seq<(string, string)>): (r: seq<string>)
    ensures |r| == |stamped|
  {
    seq(|stamped|, k requires 0 <= k < |stamped| => Entry(stamped[k].0, stamped[k].1))
  }

  predicate TidyEntry(stamp: string, entry: string) {
    '\n' !in stamp && '\n' !in entry && entry != "" && !IsSpace(entry[|entry| - 1])
  }

  lemma EntryIsTidy(stamp: string, entry: string)
    requires TidyEntry(stamp, entry)
    ensures Tidy(Entry(stamp, entry))
  {
  }

  /** So a block started empty holds the last `maxEntries` of all the entries ever appended to it. */
  lemma FreshBlockHoldsLastEntries(stamped: seq<(string, string)>, maxEntries: int)
    requires maxEntries >= 1 && forall k :: 0 <= k < |stamped| ==> TidyEntry(stamped[k].0, stamped[k].1)
    ensures Queue(AppendAll("", EntryLines(stamped), maxEntries)) == LastN(EntryLines(stamped), maxEntries)
  {
    var lines := EntryLines(stamped);
    forall k | 0 <= k < |lines| ensures Tidy(lines[k]) {
      EntryIsTidy(stamped[k].0, stamped[k].1);
    }
    BlockRefinesQueue("", lines, maxEntries);
    PushAllKeepsLast([], lines, maxEntries);
    assert [] + lines == lines;
  }

  // ---- The whole answer of an append ----

  /** The lines kept of a list: all for limit 0, the last ones for a positive limit, all but the first ones for a
      negative one. */
  predicate Kept(lines: seq<string>, limit: int, kept: seq<string>) {
    && |kept| <= |lines| && kept == lines[|lines| - |kept|..]
    && |kept| == (if limit > 0 then (if |lines| < limit then |lines| else limit)
                  else if |lines| + limit > 0 then |lines| + limit
                  else 0)
  }

  /** One block has one more line and one more write, made of what it held; every other block is as it was. */
  lemma AppendAnswer(blocks: map<Key, Block>, key: Key, line: string, maxEntries: int) returns (held: seq<string>, kept: seq<string>)
    ensures held == (if key !in blocks || |blocks[key].content| == 0 then [] else Lines(Strip(blocks[key].content)))
    ensures Kept(held + [line], maxEntries, kept)
    ensures var next := AppendSpec(blocks, key, line, maxEntries);
            && next.Keys == blocks.Keys + {key}
            && (forall k :: k in blocks && k != key ==> next[k] == blocks[k])
            && next[key].content == Join("\n", kept)
            && next[key].writes == 1 + if key in blocks then blocks[key].writes else 0
  {
    held := Queue(Content(blocks, key));
    kept := Trimmed(held + [line], maxEntries);
    HeldAnswer(blocks, key);
    TrimAnswer(held + [line], maxEntries);
    UpsertAnswer(blocks, key, line, maxEntries);
  }

  lemma HeldAnswer(blocks: map<Key, Block>, key: Key)
    ensures Queue(Content(blocks, key))
         == if key !in blocks || |blocks[key].content| == 0 then [] else Lines(Strip(blocks[key].content))
  {
  }

  lemma TrimAnswer(lines: seq<string>, limit: int)
    ensures Kept(lines, limit, Trimmed(lines, limit))
  {
  }

  lemma UpsertAnswer(blocks: map<Key, Block>, key: Key, line: string, maxEntries: int)
    ensures var next := AppendSpec(blocks, key, line, maxEntries);
            && next.Keys == blocks.Keys + {key}
            && (forall k :: k in blocks && k != key ==> next[k] == blocks[k])
            && next[key].content == Join("\n", Trimmed(Queue(Content(blocks, key)) + [line], maxEntries))
            && next[key].writes == 1 + if key in blocks then blocks[key].writes else 0
  {
  }

  /** The line an entry makes. */
  lemma EntryAnswer(stamp: string, entry: string)
    ensures |Entry(stamp, entry)| == |stamp| + |entry| + 3
    ensures Entry(stamp, entry)[0] == '[' && Entry(stamp, entry)[1..|stamp| + 1] == stamp
    ensures Entry(stamp, entry)[|stamp| + 1] == ']' && Entry(stamp, entry)[|stamp| + 2] == ' '
    ensures Entry(stamp, entry)[|stamp| + 3..] == entry
  {
  }
}
