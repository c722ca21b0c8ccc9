/** Names and states shared by everything that looks at runs. */
module Records {

  type RunId = nat

  type OrchId = nat

  datatype Status = Running | Completed | Failed
}
