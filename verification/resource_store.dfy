/** The durable store the manager reads and writes. Its persistence, encoding
    and I/O are outside this model: it is a map from path to record, and any
    call may throw an I/O error. */
module ResourceStores {
  import opened Wrappers
  import opened TableAcl

  /** The IOException a store call throws, with the path it was about. */
  datatype StoreError = IOException(path: string)

  class ResourceStore {
    var resources: map<string, TableACL>

    constructor (resources: map<string, TableACL>)
      ensures this.resources == resources
    {
      this.resources := resources;
    }

    /** `getResource(path, ...)`: the record at `path`, `None` (Java's null) when
        there is none, or an I/O error. Whether the I/O fails is not modelled. */
    method GetResource(path: string) returns (r: Result<Option<TableACL>, StoreError>)
      ensures r.Success? ==> (r.value.Some? <==> path in resources)
      ensures r.Success? && r.value.Some? ==> r.value.value == resources[path]
      ensures r.Failure? ==> r.error == IOException(path)
    {
      var reachable: bool :| true;
      if !reachable {
        return Failure(IOException(path));
      }
      r := Success(if path in resources then Some(resources[path]) else None);
    }

    /** `putResource(path, record, timestamp, ...)`: replaces the record at `path`,
        or throws and leaves the store as it was. */
    method PutResource(path: string, record: TableACL) returns (res: Outcome<StoreError>)
      modifies this
      ensures res.Pass? ==> resources == old(resources)[path := record]
      ensures res.Fail? ==> resources == old(resources) && res.error == IOException(path)
    {
      var reachable: bool :| true;
      if !reachable {
        return Fail(IOException(path));
      }
      resources := resources[path := record];
      res := Pass;
    }

    /** `collectResourceRecursively(folder, "")`: every stored path under `folder`,
        in an order the model leaves open, or an I/O error. */
    method CollectResourceRecursively(folder: string) returns (r: Result<seq<string>, StoreError>)
      ensures r.Success? ==> forall path :: path in r.value <==> path in resources && folder + "/" <= path
      ensures r.Failure? ==> r.error == IOException(folder)
    {
      var reachable: bool :| true;
      if !reachable {
        return Failure(IOException(folder));
      }
      var pending := set path | path in resources && folder + "/" <= path;
      var listed: seq<string> := [];
      while pending != {}
        invariant forall path :: path in listed || path in pending <==> path in resources && folder + "/" <= path
        decreases pending
      {
        var path :| path in pending;
        listed := listed + [path];
        pending := pending - {path};
      }
      r := Success(listed);
    }
  }
}
