/** The error map every form keeps: field to message, holding exactly the
    fields whose check failed. */
module Forms {
  import opened Wrappers

  /** Runs the checks of `fields` in order, recording each failure. */
  function Collect<F(==,!new)>(check: F -> Option<string>, fields: seq<F>): (errors: map<F, string>)
    ensures forall f :: f in errors <==> f in fields && check(f).Some?
    ensures forall f :: f in errors ==> errors[f] == check(f).value
  {
    if fields == [] then map[]
    else
      var f := fields[|fields| - 1];
      var before := Collect(check, fields[..|fields| - 1]);
      assert forall g :: g in fields <==> g in fields[..|fields| - 1] || g == f;
      match check(f)
      case Some(m) => before[f := m]
      case None => before
  }

  /** The form passes exactly when every check does. */
  lemma CollectEmpty<F(!new)>(check: F -> Option<string>, fields: seq<F>)
    ensures Collect(check, fields) == map[] <==> forall f :: f in fields ==> check(f) == None
  {
    var e := Collect(check, fields);
    if e != map[] {
      var f :| f in e;
    }
  }

  /** `if (errors[name]) setErrors({ ...errors, [name]: null })`: editing a
      field clears its message and keeps the others. */
  function ClearError<F(==,!new)>(errors: map<F, string>, f: F): (r: map<F, string>)
    ensures f !in r
    ensures forall g :: g != f ==> (g in r <==> g in errors)
    ensures forall g :: g != f && g in errors ==> r[g] == errors[g]
  {
    if f in errors then errors - {f} else errors
  }
}
