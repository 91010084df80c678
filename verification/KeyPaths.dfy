/** Where a configuration key's directory lies, and whether the walk of recovery visits it (src/agent.cpp:301-303, 484-502).
    A key may contain separators and dots, so its directory need not be a child of the live root. */
module KeyPaths {
  import opened AgentState

  /** A path as its components from the file system's root. */
  type Path = seq<string>

  function Parts(text: string): seq<string>
    decreases |text|
  {
    if text == "" then [""]
    else
      var rest := Parts(text[1..]);
      if text[0] == '/' then [""] + rest else [[text[0]] + rest[0]] + rest[1..]
  }

  /** Empty components and dots stay where they are, two dots go up. */
  function Resolve(dir: Path, parts: seq<string>): Path
    decreases |parts|
  {
    if parts == [] then dir
    else if parts[0] == "" || parts[0] == "." then Resolve(dir, parts[1..])
    else if parts[0] == ".." then Resolve(if dir == [] then [] else dir[..|dir| - 1], parts[1..])
    else Resolve(dir + [parts[0]], parts[1..])
  }

  /** `liveKeyDirectory`. */
  function DirectoryOf(root: Path, k: Id): Path {
    Resolve(root, Parts(k))
  }

  /** The recursive walk lists what lies strictly below the live root. */
  predicate Listed(root: Path, k: Id) {
    |root| < |DirectoryOf(root, k)| && root <= DirectoryOf(root, k)
  }

  /** The guard of the walk: a directory of this name is taken for a payload directory. */
  predicate Skipped(root: Path, k: Id) {
    var dir := DirectoryOf(root, k);
    dir != [] && dir[|dir| - 1] == "payload"
  }

  predicate Visited(root: Path, k: Id) {
    Listed(root, k) && !Skipped(root, k)
  }

  /** The directories the guard lets through, in walk order. */
  function Kept(root: Path, keys: seq<Id>): seq<Id> {
    if keys == [] then []
    else (if Skipped(root, keys[0]) then [] else [keys[0]]) + Kept(root, keys[1..])
  }

  lemma {:induction false} KeptIff(root: Path, keys: seq<Id>, k: Id)
    ensures k in Kept(root, keys) <==> k in keys && !Skipped(root, k)
  {
    if keys != [] {
      KeptIff(root, keys[1..], k);
      assert keys == [keys[0]] + keys[1..];
    }
  }

  lemma KeptFirst(root: Path, k: Id, keys: seq<Id>)
    requires !Skipped(root, k)
    ensures Kept(root, [k] + keys) == [k] + Kept(root, keys) && Kept(root, [k]) == [k]
  {
    hide Skipped;
    var all := [k] + keys;
    assert all[0] == k && all[1..] == keys;
    assert Kept(root, all) == [k] + Kept(root, all[1..]);
    assert Kept(root, [k]) == [k] + Kept(root, [k][1..]);
  }

  lemma {:induction false} OnePart(text: string)
    requires '/' !in text
    ensures Parts(text) == [text]
  {
    if text != "" {
      OnePart(text[1..]);
      assert text == [text[0]] + text[1..];
    }
  }

  /** A key without separators is visited exactly when it is neither a dot, nor two dots, nor "payload". */
  lemma SimpleKeys(root: Path, k: Id)
    requires '/' !in k && k != UNSET
    ensures Visited(root, k) <==> k != "." && k != ".." && k != "payload"
  {
    OnePart(k);
    assert [k][1..] == [];
    var dir := if k == "." then root else if k == ".." then (if root == [] then [] else root[..|root| - 1]) else root + [k];
    assert Resolve(root, [k]) == Resolve(dir, []) == dir;
  }

  lemma {:induction false} TwoParts(a: string, b: string)
    requires '/' !in a && '/' !in b
    ensures Parts(a + "/" + b) == [a, b]
    decreases |a|
  {
    var text := a + "/" + b;
    if a == "" {
      assert text[1..] == b;
      OnePart(b);
    } else {
      assert text[1..] == a[1..] + "/" + b;
      TwoParts(a[1..], b);
      assert a == [a[0]] + a[1..];
    }
  }

  predicate Plain(part: string) {
    '/' !in part && part != "" && part != "." && part != ".."
  }

  /** Below another directory, too, the name decides. */
  lemma NestedKeys(root: Path, a: string, b: string)
    requires Plain(a) && Plain(b)
    ensures Visited(root, a + "/" + b) <==> b != "payload"
  {
    TwoParts(a, b);
    var dir := root + [a] + [b];
    assert [a, b][1..] == [b] && [b][1..] == [];
    assert Resolve(root, [a, b]) == Resolve(root + [a], [b]) == Resolve(dir, []) == dir;
    assert root == dir[..|root|];
  }
}
