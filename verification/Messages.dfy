/** The message shape the compaction engine reasons about (src/types.ts). */
module Messages {
  datatype Option<+T> = None | Some(value: T)

  datatype Role = User | Assistant | Tool | Custom

  datatype EngineMessage = EngineMessage(
    role: Role,
    text: string,
    toolName: Option<string>,
    input: Option<string>,
    output: Option<string>)

  /** JavaScript truthiness of an optional string: present and not empty. */
  predicate Truthy(s: Option<string>) {
    s.Some? && s.value != ""
  }
}
