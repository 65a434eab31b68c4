/**
 * The computing helpers of stex_main.py's menu: normalising a menu choice, picking the file
 * a result is requested for, and unloading a file from the inventory list.
 */
module StexMain {
  import opened Outcomes
  import opened Strings
  import Filing

  /** `_normalize_user_input`: `None` for blank input, else the first character, lowercased. */
  function NormalizeUserInput(userstr: string): (r: Option<string>)
    ensures r.None? <==> userstr == []
    ensures r.Some? ==> r.value == [LowerChar(userstr[0])]
  {
    var lowercaseString := Lower(userstr);
    if |lowercaseString| < 1 then None else Some([lowercaseString[0]])
  }

  /**
   * `_prepare_to_request_result` up to its prompt: an empty inventory raises, a single file
   * is chosen without asking, and `Ok(None)` stands for handing a larger inventory to the
   * selection prompt.
   */
  function PrepareToRequestResult(inventory: seq<Filing.TextFile>): (r: Result<Option<Filing.TextFile>, Failure>)
    ensures r.Err? <==> inventory == []
    ensures r.Err? ==> r.error == EmptyInput
    ensures r == Ok(None) <==> |inventory| >= 2
    ensures r.Ok? && r.value.Some? ==> |inventory| == 1 && r.value.value == inventory[0]
  {
    if |inventory| == 0 then Err(EmptyInput)
    else if |inventory| == 1 then Ok(Some(inventory[0]))
    else Ok(None)
  }

  /** `list.remove(x)` on a list holding `x`: the first occurrence goes. */
  function RemoveFirst<T(==)>(xs: seq<T>, x: T): seq<T> {
    if xs == [] then [] else if xs[0] == x then xs[1..] else [xs[0]] + RemoveFirst(xs[1..], x)
  }

  /** The first index of `x` in `xs`. */
  function IndexOf<T(==)>(xs: seq<T>, x: T): (i: nat)
    requires x in xs
    ensures i < |xs| && xs[i] == x && x !in xs[..i]
  {
    if xs[0] == x then 0
    else
      var j := IndexOf(xs[1..], x);
      assert xs[..j + 1] == [xs[0]] + xs[1..][..j];
      j + 1
  }

  /**
   * Removing `x` drops exactly its first occurrence: everything before and after it stays
   * in order, and one copy of `x` leaves the multiset.
   */
  lemma RemoveFirstMeaning<T>(xs: seq<T>, x: T)
    requires x in xs
    ensures var i := IndexOf(xs, x);
      RemoveFirst(xs, x) == xs[..i] + xs[i + 1..]
    ensures |RemoveFirst(xs, x)| == |xs| - 1
    ensures multiset(RemoveFirst(xs, x)) == multiset(xs) - multiset{x}
  {
    var i := IndexOf(xs, x);
    RemoveFirstSlices(xs, x);
    var a, b := xs[..i], xs[i + 1..];
    var r := RemoveFirst(xs, x);
    assert r == a + b;
    assert multiset(r) == multiset(xs) - multiset{x} by {
      assert xs == a + [x] + b;
      assert multiset(xs) == multiset(a) + multiset{x} + multiset(b);
      assert multiset(a + b) == multiset(a) + multiset(b);
    }
  }

  lemma {:induction false} RemoveFirstSlices<T>(xs: seq<T>, x: T)
    requires x in xs
    ensures var i := IndexOf(xs, x);
      RemoveFirst(xs, x) == xs[..i] + xs[i + 1..]
    decreases |xs|
  {
    var i := IndexOf(xs, x);
    if xs[0] != x {
      RemoveFirstSlices(xs[1..], x);
      assert i == IndexOf(xs[1..], x) + 1;
      assert RemoveFirst(xs, x) == [xs[0]] + RemoveFirst(xs[1..], x);
      assert xs[..i] == [xs[0]] + xs[1..][..i - 1];
      assert xs[i + 1..] == xs[1..][i..];
    }
  }

  /** The messages `_unload_file` returns. */
  const UnloadSucceeded: string := "Successfully unloaded file!"
  const UnloadFailed: string := "An unexpected error occurred while attempting to unload that file."

  /** The list of loaded files, updated in place by the menu actions. */
  class Inventory {
    var files: seq<Filing.TextFile>

    constructor ()
      ensures files == []
    {
      files := [];
    }

    /**
     * `_unload_file`: removes the first occurrence of the file and reports success; a file
     * that is not loaded leaves the inventory as it was and yields the error message.
     */
    method UnloadFile(fileToRemove: Filing.TextFile) returns (message: string)
      modifies this
      ensures fileToRemove in old(files) ==> files == RemoveFirst(old(files), fileToRemove) && message == UnloadSucceeded
      ensures fileToRemove !in old(files) ==> files == old(files) && message == UnloadFailed
    {
      if fileToRemove !in files {
        return UnloadFailed;
      }
      files := RemoveFirst(files, fileToRemove);
      message := UnloadSucceeded;
    }
  }
}
