/** The LogicError objects, whose methods update their fields in place. */
module LogicErrors {
  import opened Schema
  import Tree = ErrorTree

  class LogicError {
    /** The place of this object in the order of allocation: two pointers are equal when their addresses are. */
    const address: nat
    var onlyRead: bool
    var code: int
    var message: string
    var details: Option<seq<string>>
    var wrapErr: seq<Tree.Ref>
    var data: Option<string>

    function State(): Tree.Node
      reads this
    {
      Tree.Node(onlyRead, code, message, details, wrapErr, data)
    }

    constructor (address: nat, code: int, message: string, details: Option<seq<string>>)
      ensures this.address == address
      ensures State() == Tree.Node(false, code, message, details, [], None)
    {
      this.address := address;
      this.onlyRead := false;
      this.code := code;
      this.message := message;
      this.details := details;
      this.wrapErr := [];
      this.data := None;
    }

    method Wrap(err: Tree.Ref)
      modifies this
      ensures State() == Tree.Changed(old(State()), Tree.Wrap(err))
      ensures wrapErr == if old(onlyRead) then old(wrapErr) else old(wrapErr) + [err]
      ensures onlyRead == old(onlyRead) && code == old(code) && message == old(message) && details == old(details)
               && data == old(data)
    {
      if onlyRead {
        return;
      }
      wrapErr := wrapErr + [err];
    }

    method Lock()
      modifies this
      ensures State() == Tree.Changed(old(State()), Tree.Lock)
      ensures onlyRead
      ensures code == old(code) && message == old(message) && details == old(details) && wrapErr == old(wrapErr)
               && data == old(data)
    {
      onlyRead := true;
    }

    method SetMessage(text: string)
      modifies this
      ensures State() == Tree.Changed(old(State()), Tree.SetMessage(text))
      ensures message == if old(onlyRead) then old(message) else text
      ensures onlyRead == old(onlyRead) && code == old(code) && details == old(details) && wrapErr == old(wrapErr)
               && data == old(data)
    {
      if onlyRead {
        return;
      }
      message := text;
    }

    method AddDetails(texts: seq<string>)
      modifies this
      ensures State() == Tree.Changed(old(State()), Tree.AddDetails(texts))
      ensures details == if old(onlyRead) || old(details).None? then old(details) else Some(old(details).value + texts)
      ensures onlyRead == old(onlyRead) && code == old(code) && message == old(message) && wrapErr == old(wrapErr)
               && data == old(data)
    {
      if onlyRead {
        return;
      }
      if details.None? {
        return;
      }
      details := Some(details.value + texts);
    }

    method SetData(value: string)
      modifies this
      ensures State() == Tree.Changed(old(State()), Tree.SetData(value))
      ensures data == if old(onlyRead) then old(data) else Some(value)
      ensures onlyRead == old(onlyRead) && code == old(code) && message == old(message) && details == old(details)
               && wrapErr == old(wrapErr)
    {
      if onlyRead {
        return;
      }
      data := Some(value);
    }

    /** The Is method that errors.Is calls: pointer equality with the error or with one it wraps directly. */
    method Is(err: Tree.Ref) returns (found: bool)
      ensures found <==> err == Tree.Logic(address) || err in wrapErr
    {
      if Tree.Logic(address) == err {
        return true;
      }
      for i := 0 to |wrapErr|
        invariant err !in wrapErr[..i]
      {
        if wrapErr[i] == err {
          return true;
        }
      }
      return false;
    }
  }

  /** Every LogicError allocated so far, oldest first. */
  class Allocated {
    var errors: seq<LogicError>

    ghost predicate Valid()
      reads this
    {
      forall i :: 0 <= i < |errors| ==> errors[i].address == i
    }

    function Nodes(): (nodes: seq<Tree.Node>)
      reads this, errors
      ensures |nodes| == |errors| && forall i :: 0 <= i < |errors| ==> nodes[i] == errors[i].State()
    {
      seq(|errors|, i requires 0 <= i < |errors| reads this, errors => errors[i].State())
    }

    /** A new unlocked error with the parent's code, message and details that wraps the parent; nothing else changes. */
    method NewErrorFrom(parent: LogicError) returns (e: LogicError)
      requires Valid() && parent in errors
      modifies this
      ensures Valid() && fresh(e) && errors == old(errors) + [e]
      ensures Nodes() == Tree.Apply(old(Nodes()), Tree.NewFrom(parent.address))
      ensures e.code == old(parent.code) && e.message == old(parent.message) && e.details == old(parent.details)
      ensures e.wrapErr == [Tree.Logic(parent.address)] && !e.onlyRead && e.data.None?
    {
      ghost var was := Nodes();
      e := new LogicError(|errors|, parent.code, parent.message, parent.details);
      e.Wrap(Tree.Logic(parent.address));
      errors := errors + [e];
      assert Nodes()[..|was|] == was;
      assert e.State() == Tree.Derived(was[parent.address], parent.address);
    }

    /** A call on one error leaves all others as they were, whatever it shares with them. */
    method Call(e: LogicError, update: Tree.Update)
      requires Valid() && e in errors
      modifies e
      ensures Valid() && errors == old(errors)
      ensures Nodes() == Tree.Apply(old(Nodes()), Tree.On(e.address, update))
    {
      match update
      case Wrap(err) => e.Wrap(err);
      case Lock => e.Lock();
      case SetMessage(text) => e.SetMessage(text);
      case AddDetails(texts) => e.AddDetails(texts);
      case SetData(value) => e.SetData(value);
    }

    method Perform(call: Tree.Call)
      requires Valid() && Tree.Possible(Nodes(), call)
      modifies this, errors
      ensures Valid() && old(errors) <= errors && forall e :: e in errors ==> e in old(errors) || fresh(e)
      ensures Nodes() == Tree.Apply(old(Nodes()), call)
    {
      match call
      case NewFrom(parent) =>
        var e := NewErrorFrom(errors[parent]);
      case On(node, update) =>
        Call(errors[node], update);
    }

    /**
     Whatever sequence of calls is made on the errors and on what is derived from them, a locked object stays as it is.
     */
    method PerformAll(calls: seq<Tree.Call>)
      requires Valid() && exists nodes :: Tree.Leads(Nodes(), calls, nodes)
      modifies this, errors
      ensures Valid() && old(errors) <= errors && forall e :: e in errors ==> e in old(errors) || fresh(e)
      ensures Tree.Leads(old(Nodes()), calls, Nodes())
      ensures forall e :: e in old(errors) && old(e.onlyRead) ==> e.State() == old(e.State())
      decreases |calls|
    {
      ghost var was, objects := Nodes(), errors;
      if calls != [] {
        Perform(calls[0]);
        assert forall k :: 0 <= k < |errors| ==> errors[k] in objects || fresh(errors[k]);
        PerformAll(calls[1..]);
      }
      forall i | 0 <= i < |objects| && was[i].onlyRead ensures objects[i].State() == was[i] {
        Tree.LockedNeverChanges(was, calls, Nodes(), i);
        assert Nodes()[i] == errors[i].State();
      }
    }
  }
}
