/** Option, used where the application keeps a nullable column or returns nil. */
module Wrappers {
  datatype Option<+T> = None | Some(value: T)
}

/** Game modes and the mode predicates every transaction branches on. */
module Modes {
  datatype Mode =
    | Solo | Daily | Practice
    | PrivateRoom | PartyLobby
    | Ranked | RankedSolo | RankedDuo | RankedSquad
    | CasualSolo | CasualDuo | CasualSquad

  predicate IsRankedMode(m: Mode) { m.Ranked? || m.RankedSolo? || m.RankedDuo? || m.RankedSquad? }

  predicate IsCasualMode(m: Mode) { m.CasualSolo? || m.CasualDuo? || m.CasualSquad? }

  predicate IsPartyLobbyMode(m: Mode) { m.PrivateRoom? || m.PartyLobby? }

  predicate IsMultiplayerMode(m: Mode) { IsPartyLobbyMode(m) || IsRankedMode(m) || IsCasualMode(m) }

  /** Modes a formed match can give its game. */
  predicate IsMatchmadeMode(m: Mode) { IsRankedMode(m) || IsCasualMode(m) }
}
