// TraceboxLogger: the server and the log writer it feeds.
module TraceboxLoggers {
  import opened Bytes
  import opened StorageSpec
  import opened Retention
  import opened Storages
  import opened Servers
  import opened LogWriters

  class TraceboxLogger {
    const writer: LogWriter
    const server: Server
    const parse: seq<byte> -> Option<Request>

    ghost predicate Valid()
      reads this, server, server.kernel, writer, writer.storage, writer.storage.backend
      reads writer.storage.backend.folder, writer.storage.backend.folder.files.Values
    {
      server.Valid() && writer.Valid() && !writer.stopping
    }

    constructor (kernel: Kernel, storage: Storage, parse: seq<byte> -> Option<Request>)
      requires kernel.watched == {} && storage.Valid()
      modifies kernel
      ensures Valid() && server.kernel == kernel && server.others == old(kernel.open) && this.parse == parse
      ensures writer.queue == [] && writer.stored == [] && writer.storage == storage
      ensures fresh(writer) && fresh(server)
    {
      this.parse := parse;
      writer := new LogWriter(storage);
      server := new Server(kernel);
      new;
      var started := server.Start();
    }

    // The server's callback; its answer is always empty.
    method HandleLogRequest(data: seq<byte>) returns (answer: seq<byte>)
      requires Valid()
      modifies writer
      ensures Valid() && answer == [] && writer.stored == old(writer.stored)
      ensures writer.queue == old(writer.queue) + match parse(data) case None => [] case Some(r) => [r]
    {
      match parse(data) {
        case None =>
          assert writer.queue + [] == writer.queue;
        case Some(request) =>
          var ok := writer.Add(request);
      }
      return [];
    }

    // ~TraceboxLogger stops the server, ~Server does so again, and only then
    // ~LogWriter stops the writer.
    method Destroy()
      requires Valid()
      modifies server, server.kernel, writer, writer.storage.Parts()
      ensures server.state == Stopped && server.kernel.open == server.others
      ensures writer.queue == [] && writer.stored == old(writer.stored) + old(writer.queue)
      ensures writer.storage.Valid()
      ensures writer.storage.View() ==
        Run(old(writer.storage.View()), writer.storage.backend.cal, old(writer.queue))
    {
      hide Storage.View, Storage.Valid, Run;
      server.Stop();
      server.Stop();
      writer.Stop();
    }
  }
}
