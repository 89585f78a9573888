/** bank/branch: a bank keeps the list of its branches (Bank.java), each
    branch knows its bank (Branch.java), and BranchManager.java adds,
    removes, shows and renames branches. Branches compare by identity,
    since Branch does not override equals. */
module Branches {
  import opened Options
  import opened Ids
  import opened Lists

  class Bank {
    const bankId: int
    const name: string
    var branches: seq<Branch>

    /** The branch list holds each branch at most once. */
    ghost predicate Valid()
      reads this
    {
      NoDuplicates(branches)
    }

    /** Bank(name): the next id of the class-wide int counter, the name, and
        no branches. */
    constructor (name: string, ids: IdCounter)
      requires ids.Valid()
      modifies ids
      ensures ids.Valid() && bankId == ids.last
      ensures old(ids.last) < ids.max ==> bankId == old(ids.last) + 1
      ensures this.name == name && branches == [] && Valid()
    {
      var next := ids.Next();
      bankId := next;
      this.name := name;
      branches := [];
    }

    /** addBranch: appended unless already present (then only a message is
        printed), so the list stays free of duplicates. */
    method AddBranch(branch: Branch)
      modifies this`branches
      ensures branch in old(branches) ==> branches == old(branches)
      ensures branch !in old(branches) ==> branches == old(branches) + [branch]
      ensures branch in branches
      ensures old(Valid()) ==> Valid()
    {
      if branch !in branches {
        branches := branches + [branch];
      }
    }

    /** removeBranch: List.remove(Object) drops the first occurrence and
        reports whether there was one; in a duplicate-free list the branch is
        then gone altogether. */
    method RemoveBranch(branch: Branch) returns (removed: bool)
      modifies this`branches
      ensures removed <==> branch in old(branches)
      ensures branches == RemoveFirst(old(branches), branch)
      ensures old(Valid()) ==> Valid() && branch !in branches
      ensures old(Valid()) ==> forall b :: b != branch ==> (b in branches <==> b in old(branches))
    {
      removed := branch in branches;
      if old(Valid()) {
        RemoveFirstFromUnique(branches, branch);
      }
      branches := RemoveFirst(branches, branch);
    }

    /** getBranch: element `index`; an index out of range throws
        IndexOutOfBoundsException, here None. */
    function GetBranch(index: int): (r: Option<Branch>)
      reads this
      ensures r.Some? <==> 0 <= index < |branches|
      ensures r.Some? ==> r.value == branches[index]
    {
      if 0 <= index < |branches| then Some(branches[index]) else None
    }
  }

  class Branch {
    const branchId: int
    var branchName: string
    var address: string
    var bank: Bank

    /** Branch(name, address, bank): the next id of the class-wide int
        counter. The branch is not added to the bank. */
    constructor (branchName: string, address: string, bank: Bank, ids: IdCounter)
      requires ids.Valid()
      modifies ids
      ensures ids.Valid() && branchId == ids.last
      ensures old(ids.last) < ids.max ==> branchId == old(ids.last) + 1
      ensures this.branchName == branchName && this.address == address && this.bank == bank
    {
      this.branchName := branchName;
      this.address := address;
      this.bank := bank;
      var next := ids.Next();
      branchId := next;
    }
  }

  /** BranchManager.addBranch: a new branch of `bank`, which becomes the last
      element of the bank's list. */
  method AddBranch(branchName: string, address: string, bank: Bank, ids: IdCounter) returns (branch: Branch)
    requires ids.Valid()
    modifies bank`branches, ids
    ensures ids.Valid() && fresh(branch)
    ensures branch.branchName == branchName && branch.address == address && branch.bank == bank
    ensures branch.branchId == ids.last
    ensures bank.branches == old(bank.branches) + [branch]
    ensures old(bank.Valid()) ==> bank.Valid()
  {
    branch := new Branch(branchName, address, bank, ids);
    bank.AddBranch(branch);
  }

  /** BranchManager.removeBranch: removed from the bank the branch itself
      refers to. */
  method RemoveBranch(branch: Branch) returns (removed: bool)
    modifies branch.bank`branches
    ensures removed <==> branch in old(branch.bank.branches)
    ensures branch.bank.branches == RemoveFirst(old(branch.bank.branches), branch)
    ensures old(branch.bank.Valid()) ==> branch.bank.Valid() && branch !in branch.bank.branches
  {
    removed := branch.bank.RemoveBranch(branch);
  }

  /** BranchManager.getBranchInfo: the very branch passed in. */
  function GetBranchInfo(branch: Branch): (r: Branch)
    ensures r == branch
  {
    branch
  }

  /** BranchManager.updateBranch: new address and name; the id and the bank
      stay. */
  method UpdateBranch(branch: Branch, newName: string, newAddress: string)
    modifies branch`branchName, branch`address
    ensures branch.branchName == newName && branch.address == newAddress
  {
    branch.address := newAddress;
    branch.branchName := newName;
  }

  /** A second removal of the same branch reports false and leaves the
      bank's list as it is. */
  method RemoveTwice(branch: Branch) returns (first: bool, second: bool)
    requires branch.bank.Valid()
    modifies branch.bank`branches
    ensures first <==> branch in old(branch.bank.branches)
    ensures !second
    ensures branch.bank.branches == RemoveFirst(old(branch.bank.branches), branch)
  {
    first := RemoveBranch(branch);
    second := RemoveBranch(branch);
  }
}
