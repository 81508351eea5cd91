/**
 * The gateway tests' stub for deploy-process requests. Registered with the
 * stubbed broker client, it answers a deployment request by adding one
 * process entry per deployment resource to the request's own deployment
 * record and returning that record as the broker's response.
 */
module DeployProcess {
  const Key: int := 123
  const ProcessKey: int := 456
  const ProcessVersion: int := 789

  /** A deployment resource: its name and its content. */
  datatype Resource = Resource(resourceName: seq<char>, resource: seq<char>)

  /** A process entry of a deployment record. */
  datatype ProcessMetadata = ProcessMetadata(bpmnProcessId: seq<char>, resourceName: seq<char>, version: int, key: int)

  /** The deployment record the request writes: its resources and its processes. */
  class DeploymentRecord {
    var resources: seq<Resource>
    var processes: seq<ProcessMetadata>

    constructor (resources: seq<Resource>)
      ensures this.resources == resources && processes == []
    {
      this.resources := resources;
      processes := [];
    }

    /** `processs().add()` followed by the four setters. */
    method AddProcess(p: ProcessMetadata)
      modifies this
      ensures resources == old(resources) && processes == old(processes) + [p]
    {
      processes := processes + [p];
    }
  }

  /** A deploy-process request; the record it carries is its request writer. */
  class BrokerDeployProcessRequest {
    const requestWriter: DeploymentRecord

    constructor (record: DeploymentRecord)
      ensures requestWriter == record
    {
      requestWriter := record;
    }
  }

  /** `BrokerResponse<DeploymentRecord>`: the record, the partition id and the key. */
  datatype BrokerResponse = BrokerResponse(response: DeploymentRecord, partitionId: int, key: int)

  /** The request classes a stubbed broker client dispatches on. */
  datatype RequestClass = BrokerDeployProcessRequestClass | OtherRequestClass(name: string)

  /** The stubbed broker client: one handler per request class. */
  class StubbedBrokerClient {
    var handlers: map<RequestClass, DeployProcessStub>

    constructor ()
      ensures handlers == map[]
    {
      handlers := map[];
    }

    method RegisterHandler(requestClass: RequestClass, stub: DeployProcessStub)
      modifies this
      ensures handlers == old(handlers)[requestClass := stub]
    {
      handlers := handlers[requestClass := stub];
    }
  }

  /** The entry `handle` adds for one resource. */
  function ProcessOf(r: Resource): ProcessMetadata {
    ProcessMetadata(r.resourceName, r.resourceName, ProcessVersion, ProcessKey)
  }

  /** The entries `handle` adds for the resources, in iteration order. */
  function ProcessesFor(rs: seq<Resource>): seq<ProcessMetadata> {
    if rs == [] then [] else ProcessesFor(rs[..|rs| - 1]) + [ProcessOf(rs[|rs| - 1])]
  }

  /**
   * One entry per resource, in order; each names its resource as both its
   * BPMN process id and its resource name, with version 789 and key 456.
   */
  lemma {:induction false} ProcessesForEach(rs: seq<Resource>)
    ensures |ProcessesFor(rs)| == |rs|
    ensures forall i | 0 <= i < |rs| ::
      && ProcessesFor(rs)[i].bpmnProcessId == rs[i].resourceName
      && ProcessesFor(rs)[i].resourceName == rs[i].resourceName
      && ProcessesFor(rs)[i].version == 789
      && ProcessesFor(rs)[i].key == 456
  {
    if rs != [] {
      ProcessesForEach(rs[..|rs| - 1]);
    }
  }

  class DeployProcessStub {
    constructor ()
    {
    }

    /** Registers this stub as the handler of deploy-process requests. */
    method RegisterWith(gateway: StubbedBrokerClient)
      modifies gateway
      ensures gateway.handlers == old(gateway.handlers)[BrokerDeployProcessRequestClass := this]
    {
      gateway.RegisterHandler(BrokerDeployProcessRequestClass, this);
    }

    function GetKey(): (k: int)
      ensures k == 123
    {
      Key
    }

    function GetProcessKey(): (k: int)
      ensures k == 456
    {
      ProcessKey
    }

    function GetProcessVersion(): (v: int)
      ensures v == 789
    {
      ProcessVersion
    }

    /**
     * `handle`: adds one process entry per resource to the request's record,
     * leaves the resources as they are, and answers with that same record,
     * partition 0 and the stub's key.
     */
    method Handle(request: BrokerDeployProcessRequest) returns (r: BrokerResponse)
      modifies request.requestWriter
      ensures r.response == request.requestWriter && r.partitionId == 0 && r.key == GetKey()
      ensures r.response.resources == old(request.requestWriter.resources)
      ensures r.response.processes == old(request.requestWriter.processes) + ProcessesFor(r.response.resources)
    {
      var record := request.requestWriter;
      var rs := record.resources;
      var i := 0;
      while i < |rs|
        invariant 0 <= i <= |rs|
        invariant record.resources == rs
        invariant record.processes == old(record.processes) + ProcessesFor(rs[..i])
      {
        assert rs[..i + 1][..i] == rs[..i];
        record.AddProcess(ProcessMetadata(rs[i].resourceName, rs[i].resourceName, ProcessVersion, ProcessKey));
        i := i + 1;
      }
      assert rs[..i] == rs;
      r := BrokerResponse(record, 0, Key);
    }
  }
}
