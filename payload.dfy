/**
 * The payload store the client service correlates commands through:
 * one record per agent address, shared by reference between the dispatcher
 * (which publishes, polls and removes it) and the delivery path (which writes
 * the agent's reply into it).
 */
module Payload {

  /** payload.Data: an in-flight command and, once it arrives, its reply. */
  class Data {
    var request: string
    var response: string
    var hasResponse: bool
    var hasError: bool

    /** &payload.Data{Request: request}: every other field holds Go's zero value. */
    constructor (request: string)
      ensures this.request == request && response == []
      ensures !hasResponse && !hasError
    {
      this.request := request;
      response := [];
      hasResponse := false;
      hasError := false;
    }
  }

  /** payload.Service: records keyed by decoded agent address, at most one per address. */
  class Service {
    var entries: map<string, Data>

    /** Publishes d under addr, replacing any record already held for addr. */
    method Set(addr: string, d: Data)
      modifies this
      ensures entries == old(entries)[addr := d]
    {
      entries := entries[addr := d];
    }

    /** Looks up the record held for addr; a miss yields nil. */
    method Get(addr: string) returns (d: Data?, found: bool)
      ensures found <==> addr in entries
      ensures found ==> d == entries[addr]
      ensures !found ==> d == null
    {
      found := addr in entries;
      d := if found then entries[addr] else null;
    }

    /** Drops the record held for addr, if any; every other address keeps its record. */
    method Remove(addr: string)
      modifies this
      ensures entries == old(entries) - {addr}
    {
      entries := entries - {addr};
    }

    /**
     * The delivery path, which lies outside the client service: it writes the
     * agent's reply into the record held for addr and raises HasResponse.
     * Its code is not part of this model, so the Request field it leaves
     * behind is whatever request says. It touches no other record.
     */
    method Deliver(addr: string, request: string, response: string, hasError: bool)
      modifies if addr in entries then {entries[addr]} else {}
      ensures addr in entries ==> entries[addr].response == response && entries[addr].hasError == hasError
      ensures addr in entries ==> entries[addr].hasResponse && entries[addr].request == request
    {
      if addr in entries {
        var d := entries[addr];
        d.request := request;
        d.response := response;
        d.hasError := hasError;
        d.hasResponse := true;
      }
    }
  }
}
