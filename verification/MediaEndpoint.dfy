/**
 One endpoint process in place: its configuration, the handling of a signal, and its exit.
 */
module MediaEndpoints {
  import opened Wrappers
  import opened Registry
  import opened SharedLists
  import opened Protocol

  class MediaEndpoint {
    const list: SharedList
    var conf: Data
    var running: bool

    // Past the parsing of the arguments.
    constructor (list: SharedList, args: Data)
      requires ParseArguments(args).Some?
      ensures this.list == list && Some(conf) == ParseArguments(args) && running
      ensures 0 < conf.port < 65536 && (conf.port - args.port) % 65536 == 0
      ensures 0 < conf.destPort < 65536 && (conf.destPort - args.destPort) % 65536 == 0
      ensures conf.destAddr == args.destAddr && conf.duration == args.duration != 0
    {
      this.list := list;
      conf := ParseArguments(args).value;
      running := true;
    }

    /** Fetches the endpoint's record and copies it over conf, one field after another. False
        stands for the crash on a NULL pointer. */
    method HandleSignal() returns (alive: bool)
      requires list.Valid()
      modifies `conf
      ensures alive == Lookup(list.table, old(conf).port).Some?
      ensures alive ==> conf == Lookup(list.table, old(conf).port).value.data
      ensures !alive ==> conf == old(conf)
    {
      var newConf := list.FetchElement(conf.port);
      if newConf == -1 {
        return false;
      }
      var k := 0;
      ghost var record := list.nodes[newConf].data;
      while k < FIELDS
        invariant 0 <= k <= FIELDS
        invariant FieldsBelow(conf, record, k)
      {
        conf := CopyField(conf, list.nodes[newConf].data, k);
        k := k + 1;
      }
      return true;
    }

    /** The way out after a timeout. */
    method Leave()
      requires list.Valid()
      modifies `running, list, list.nodes
      ensures list.Valid() && !running
      ensures list.table == Remove(old(list.table), conf.port)
    {
      running := false;
      var removed := list.RemoveElement(conf.port);
    }
  }
}
