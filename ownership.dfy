/** The ownership guard the donation and request handlers apply before they
    touch a document: the owner and any admin may proceed, nobody else. */
module Ownership {
  import opened Base

  predicate CanMutate(owner: UserId, caller: Caller) {
    owner == caller.id || caller.role == AdminRole
  }
}
