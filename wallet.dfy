/** The HD wallet that hands out one receiving address per purchase: the
    network chosen from the configuration, the next derivation index read
    from the address log, and the address derived at child path m/0/<index>
    of the extended public key. Key derivation and address parsing belong to
    the Dash library and are passed in as functions. */
module Wallet {
  import opened Common
  import Strings

  datatype Network = Testnet | Livenet

  /** The constructor's choice: testnet exactly when the configured network
      is the text "testnet", the main network for anything else. */
  function NetworkFor(name: string): (n: Network)
    ensures n == Testnet <==> name == "testnet"
  {
    if name == "testnet" then Testnet else Livenet
  }

  /** The child path handed to the extended public key for an index. */
  function ChildPath(index: int): (path: string)
    ensures Strings.StartsWith(path, "m/0/")
    ensures path[4..] == Strings.IntToString(index)
  {
    "m/0/" + Strings.IntToString(index)
  }

  /** Different indices give different child paths, so (for a derivation
      that separates paths) different addresses. */
  lemma ChildPathInjective(i: int, j: int)
    requires ChildPath(i) == ChildPath(j)
    ensures i == j
  {
    assert ChildPath(i)[4..] == ChildPath(j)[4..];
    Strings.IntToStringInjective(i, j);
  }

  /** The message a failed derivation is re-thrown with. */
  function AddressError(index: int, message: string): string {
    "Failed to generate address at index " + Strings.IntToString(index) + ": " + message
  }

  /** `generateAddress(index)`: derive at m/0/<index> from the extended
      public key read from the key manager. `derive(xpub, path, network)`
      stands for the library's parse-derive-encode chain and its errors; any
      error, including a failure to read the key, is re-thrown with the index. */
  function GenerateAddress(xpub: Result<string>, index: int, network: Network,
                           derive: (string, string, Network) -> Result<string>): (r: Result<string>)
    ensures r.Success? <==> xpub.Success? && derive(xpub.value, ChildPath(index), network).Success?
    ensures r.Success? ==> r.value == derive(xpub.value, ChildPath(index), network).value
    ensures r.Failure? ==>
      r.error == AddressError(index, if xpub.Failure? then xpub.error else derive(xpub.value, ChildPath(index), network).error)
  {
    if xpub.Failure? then Failure(AddressError(index, xpub.error))
    else
      var address := derive(xpub.value, ChildPath(index), network);
      if address.Failure? then Failure(AddressError(index, address.error)) else address
  }

  /** `validateAddress(address)`: the library's parse result for the wallet's
      network as a boolean; a parse error becomes false and is never thrown. */
  function ValidateAddress(address: string, network: Network, parse: (string, Network) -> Outcome): (valid: bool)
    ensures valid <==> parse(address, network) == Pass
    ensures !valid ==> parse(address, network).Fail?
  {
    match parse(address, network)
    case Pass => true
    case Fail(_) => false
  }

  // ---------------------------------------------------------------------
  // The next derivation index

  /** The largest index in a non-empty log. */
  function MaxIndex(indices: seq<int>): (m: int)
    requires |indices| > 0
    ensures m in indices
    ensures forall i :: 0 <= i < |indices| ==> indices[i] <= m
  {
    if |indices| == 1 then indices[0]
    else
      var rest := MaxIndex(indices[1..]);
      assert forall i :: 1 <= i < |indices| ==> indices[i] == indices[1..][i - 1];
      if indices[0] >= rest then indices[0] else rest
  }

  const INDEX_ERROR := "Failed to generate unique address index"

  /** `getNextAddressIndex()`, given the answer of the log query (all logged
      derivation indices, or the database error): one past the highest
      logged index, or 0 for an empty log (the last index defaults to -1). */
  function NextAddressIndex(query: Result<seq<int>>): (r: Result<int>)
    ensures r.Failure? <==> query.Failure?
    ensures r.Failure? ==> r.error == INDEX_ERROR
    ensures r.Success? && query.value == [] ==> r.value == 0
    ensures r.Success? && query.value != [] ==> r.value == MaxIndex(query.value) + 1
  {
    if query.Failure? then Failure(INDEX_ERROR)
    else
      var lastIndex := if |query.value| > 0 then MaxIndex(query.value) else -1;
      Success(lastIndex + 1)
  }

  /** The index handed out lies above every logged index, so it is not in
      the log; it is also the least such value above the logged ones. */
  lemma NextIndexIsFresh(indices: seq<int>)
    ensures var n := NextAddressIndex(Success(indices)).value;
      && (forall i :: 0 <= i < |indices| ==> indices[i] < n)
      && n !in indices
      && (indices == [] || n - 1 in indices)
  {
  }

  /** A log of non-negative indices yields a non-negative next index. */
  lemma NextIndexNonNegative(indices: seq<int>)
    requires forall i :: 0 <= i < |indices| ==> indices[i] >= 0
    ensures NextAddressIndex(Success(indices)).value >= 0
  {
  }

  /** Appending the handed-out index to the log moves the next index on by
      one; without the append the same index comes back. Uniqueness of
      addresses therefore rests on the caller logging each index it uses. */
  lemma NextIndexAfterLogging(indices: seq<int>)
    ensures var n := NextAddressIndex(Success(indices)).value;
      NextAddressIndex(Success(indices + [n])) == Success(n + 1)
  {
    var n := NextAddressIndex(Success(indices)).value;
    var t := indices + [n];
    assert t[|t| - 1] == n;
    assert forall i :: 0 <= i < |indices| ==> t[i] == indices[i];
  }

  /** Indices logged one after another by successive calls are strictly
      increasing, so no two of them coincide. */
  lemma {:induction false} LoggedIndicesDistinct(k: nat)
    ensures Increasing(Allocations([], k))
    decreases k
  {
    if k > 0 {
      LoggedIndicesDistinct(k - 1);
      var prev := Allocations([], k - 1);
      var n := NextAddressIndex(Success(prev)).value;
      var log := Allocations([], k);
      assert log == prev + [n];
      NextIndexFresh(prev);
      forall i, j | 0 <= i < j < |log|
        ensures log[i] < log[j]
      {
        if j < |prev| {
          assert log[i] == prev[i] && log[j] == prev[j];
          assert prev[i] < prev[j];
        } else {
          assert log[i] == prev[i] && log[j] == n;
          assert prev[i] < n;
        }
      }
    }
  }

  predicate Increasing(s: seq<int>) {
    forall i, j :: 0 <= i < j < |s| ==> s[i] < s[j]
  }

  /** The log after k calls that each append the index they were handed. */
  function Allocations(start: seq<int>, k: nat): (log: seq<int>)
    ensures |log| == |start| + k
    ensures log[..|start|] == start
  {
    if k == 0 then start
    else
      var prev := Allocations(start, k - 1);
      prev + [NextAddressIndex(Success(prev)).value]
  }

  lemma NextIndexFresh(log: seq<int>)
    ensures var n := NextAddressIndex(Success(log)).value;
      forall i :: 0 <= i < |log| ==> log[i] < n
  {
  }
}
