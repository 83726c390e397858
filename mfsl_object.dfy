/*
 * The object-level entry points of mfsl_async.c that carry logic:
 * MFSL_async_object_is_synchronous and MFSL_lookup.
 */
module MfslObjects {
  import opened Fsal
  import opened MfslTypes

  /**
   * MFSL_async_object_is_synchronous: no object is not synchronous; an
   * object is synchronous exactly when no operation is recorded as its last
   * one.  Whether that operation is still inside the asynchronous window is
   * not consulted.
   */
  predicate IsSynchronous(o: MfslObject?)
    reads o
  {
    o != null && o.lastOpDesc.None?
  }

  /**
   * MFSL_lookup: forwards to FSAL_lookup under the wrapped parent handle;
   * the handle found becomes the object's, the attributes found are left
   * in the caller's buffer, and FSAL_lookup's status is the answer.
   */
  method Lookup(parent: MfslObject, name: Name, ctx: OpContext, obj: MfslObject,
                attrs: Option<Attrs>, be: Backend)
    returns (st: Status, attrsOut: Option<Attrs>)
    modifies obj`handle
    ensures var reply := be.lookup(old(parent.handle), name, ctx, attrs);
            st == reply.status && obj.handle == reply.handle && attrsOut == reply.attrs
  {
    var reply := be.lookup(parent.handle, name, ctx, attrs);
    obj.handle := reply.handle;
    st, attrsOut := reply.status, reply.attrs;
  }
}
