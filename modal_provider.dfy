/** The modal provider: one modal at a time, held as the pair
    (`isOpen`, `modalContent`), opened with content and closed to nothing,
    and the hook that reaches it from inside the provider only. */
module ModalProvider {
  import opened Common

  const OutsideProviderError := "useModal must be used within a ModalProvider"

  /** The React node values `setOpen` can be given, as far as JavaScript
      truthiness tells them apart. */
  datatype Node =
    | Null
    | Undefined
    | Bool(b: bool)
    | Number(n: real)
    | NaN
    | BigInt(i: int)
    | Text(s: string)
    | Element(key: nat)
    | Fragment(length: nat)

  /** `!modal`: the falsy node values. */
  predicate Falsy(n: Node) {
    match n
    case Null | Undefined | NaN => true
    case Bool(b) => !b
    case Number(x) => x == 0.0
    case BigInt(i) => i == 0
    case Text(s) => s == ""
    case Element(_) | Fragment(_) => false
  }

  /** The falsy nodes are exactly null, undefined, false, zero, NaN, the
      big integer `0n` and the empty string; every element and every array
      is truthy. */
  lemma FalsyNodes(n: Node)
    ensures Falsy(n) <==> n in {Null, Undefined, Bool(false), Number(0.0), NaN, BigInt(0), Text("")}
  {
  }

  /** The provider's state: open with content to show, or closed with none. */
  predicate Consistent(isOpen: bool, content: Node) {
    (isOpen && !Falsy(content)) || (!isOpen && content == Null)
  }

  /** In a consistent state the modal is open exactly when its content is
      not null. */
  lemma ConsistentMeansOpenIffContent(isOpen: bool, content: Node)
    requires Consistent(isOpen, content)
    ensures isOpen <==> content != Null
  {
  }

  class Provider {
    var isOpen: bool
    var modalContent: Node

    ghost predicate Valid()
      reads this
    {
      Consistent(isOpen, modalContent)
    }

    constructor ()
      ensures Valid() && !isOpen && modalContent == Null
    {
      isOpen := false;
      modalContent := Null;
    }

    /** `setOpen`: a falsy node is ignored; any other is shown. */
    method SetOpen(modal: Node)
      requires Valid()
      modifies this
      ensures Valid()
      ensures Falsy(modal) ==> isOpen == old(isOpen) && modalContent == old(modalContent)
      ensures !Falsy(modal) ==> isOpen && modalContent == modal
    {
      if Falsy(modal) {
        return;
      }
      modalContent := modal;
      isOpen := true;
    }

    /** `setClose`: closed with no content, whatever the state before, so a
        second close changes nothing. */
    method SetClose()
      requires Valid()
      modifies this
      ensures Valid()
      ensures !isOpen && modalContent == Null
    {
      isOpen := false;
      modalContent := Null;
    }
  }

  /** `useModal`: the context of the enclosing provider, or the error thrown
      when there is none. */
  function UseModal(context: Option<Provider>): (r: Result<Provider, string>)
    ensures r.Success? <==> context.Some?
    ensures r.Success? ==> r.value == context.value
    ensures r.Failure? ==> r.error == OutsideProviderError
  {
    match context
    case None => Failure(OutsideProviderError)
    case Some(p) => Success(p)
  }
}
