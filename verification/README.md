# Sphere collision simulator: physics model in Dafny

This project models the physics update of a small 3D collision demo (`colisor.c`).
Up to 100 spheres (`Bola`) bounce inside a cube. Each frame, `AtualizarSimulacao` does two things:

- It moves every sphere by velocity times the frame time, then applies the wall response `ColisaoParede`.
- It then runs one pairwise pass, `ColisoesEntreBolas`, over all index pairs `i < j`.

The pass resolves each overlapping pair with an equal-mass collision along the contact normal. The restitution coefficient `Cr` scales that collision. The pass then pushes both spheres apart by half the overlap each.

The model uses `real` in place of `float`. Three-vectors are `Vectors.Vec3`.

Modules:

- `Vectors` (vector.dfy): vector algebra. `IsLengthOf(d, v)` says `d` is the Euclidean length of `v`. It stands in for `Vector3Length`.
- `Scene` (scene.dfy): `Ball`, `Color`, and `Config`, which holds the four menu parameters. `Config.Limit()` is `LIMITE = TAMANHO_CUBO / 2`. `Config.AcceptedByMenu()` is what the menu's re-prompt loops enforce. `Config.Valid()` is the corrected configuration predicate (see Findings). `InitialRadius` is the radius draw.
- `Wall` (wall.dfy): `ColisaoParede`.
- `Pair` (pair.dfy): the body of the double loop. It covers the contact test, the normal-velocity exchange and the positional correction.
- `Pass` (pass.dfy): `ColisoesEntreBolas`. `Row` and `Rows` give a recursive reference definition of the pass. `PairwisePass` implements it as a double loop over an array.
- `Simulation` (simulation.dfy): `AtualizarSimulacao`.

The square root inside `Vector3Length` is not computed. `ResolvePair` takes the distance `dist` together with the precondition `IsLengthOf(dist, delta)`. The pass and the step take a function `len` with `IsLength(len)`, meaning `len(v)` is the length of `v` for every `v`.

## Model

| member | source | states |
|---|---|---|
| `Scene.InitialRadius` | colisor.c:76 | A drawn radius lies in [0.7, 1.29] and is a whole number of hundredths above 0.7. |
| `Scene.ValidConfigFitsEveryRadius` | colisor.c:54-56 | Under the corrected configuration predicate, every radius the initialiser can draw is at most `LIMITE`. |
| `Wall.BounceAxis` | colisor.c:81-82 | On one axis, the coordinate and velocity are unchanged inside `[-LIMITE+raio, LIMITE-raio]`. Outside it, the coordinate goes to the face it crossed, the upper face winning, and the velocity becomes `-Cr` times itself. If `raio <= LIMITE`, the result is always inside. |
| `Wall.WallCollision` | colisor.c:80-89 | Each of x, y, z responds independently as `AxisResponse` describes. Radius and colour never change. A sphere with `raio <= LIMITE` ends inside the cube. A sphere already inside is returned unchanged. |
| `Wall.WallIdempotent` | colisor.c:80-89 | When `raio <= LIMITE`, a second wall check right after the first changes neither position nor velocity. |
| `Wall.WallLeavesInsideBallAlone` | colisor.c:80-89 | A sphere already inside the cube is not modified. |
| `Wall.WallBounceExample` | colisor.c:81 | Take a unit sphere with x = LIMITE = 20, v.x = 5 and Cr = 0.8. It ends with x = 19 and v.x = -4. Its y and z are untouched. |
| `Wall.OversizedBallNeverSettles` | colisor.c:80-89 | When `raio > LIMITE`, every wall check clamps all three axes, so each coordinate ends at `+-(LIMITE - raio)`. It also scales the whole velocity by `-Cr`. The sphere is never inside the cube. A second check straight after the first sends the centre to its mirror point through the origin. |
| `Wall.MenuAdmitsOversizedBall` | colisor.c:51-56 | The menu accepts cube size 1.01 (LIMITE 0.505), which the corrected predicate rejects. The smallest drawable radius, 0.7, exceeds that LIMITE. |
| `Wall.ValidConfigKeepsBallsInside` | colisor.c:80-89 | Under the corrected configuration, any sphere with a drawable radius is inside the cube after the wall check, and a repeated check leaves it unchanged. |
| `Pair.NormalResponse` | colisor.c:103-106 | The equal-mass formula keeps `vf1 + vf2 == vi1 + vi2` and gives `vf1 - vf2 == -Cr * (vi1 - vi2)`. These two facts fix the result uniquely. |
| `Pair.ElasticExchangeExample` | colisor.c:103-106 | With Cr = 1, normal velocities 3 and -1 become -1 and 3. |
| `Pair.ElasticNormalSwap` | colisor.c:103-106 | With Cr = 1, the two normal velocities swap, so the sum of their squares is kept. |
| `Pair.NormalEnergyChange` | colisor.c:103-106 | The sum of squared normal velocities changes by exactly `(Cr^2 - 1)/2 * (vi1 - vi2)^2`. |
| `Pair.ResolvePair` | colisor.c:94-115 | Radius and colour are never changed. The pair is returned untouched when `dist >= somaR` or `dist == 0`, so there is no division by zero. |
| `Pair.PairConservesVelocitySum` | colisor.c:108-109 | The vector sum of the two velocities is the same before and after. |
| `Pair.PairConservesPositionSum` | colisor.c:111-114 | The sum of the two centres is the same before and after, because the push is symmetric. |
| `Pair.PairRestitution` | colisor.c:99-109 | For a resolved pair, the relative velocity along the unit normal becomes `-Cr` times the old one. Each sphere's new normal velocity is the one `NormalResponse` gives. |
| `Pair.PairFrictionless` | colisor.c:108-109 | Along any direction orthogonal to the centre line, each sphere's velocity component is unchanged. |
| `Pair.PairSeparation` | colisor.c:111-114 | For a resolved pair, the new centre displacement is `normal * somaR`. Its length is exactly `somaR`, which is strictly more than the old distance. |
| `Pair.PairEnergy` | colisor.c:99-109 | The pair's sum of squared speeds changes by `(Cr^2 - 1)/2` times the squared relative normal velocity. It is kept for Cr = 1 and does not grow for 0 < Cr <= 1. |
| `Pass.PairStep` | colisor.c:94-115 | Resolving spheres `i` and `j` and writing both back keeps the array length. |
| `Pass.Row` | colisor.c:93-116 | The inner loop, pairs `(i, j)` to `(i, n-1)` in order, keeps the array length. |
| `Pass.Rows` | colisor.c:92-117 | The outer loop, rows `i` to `n-1` in order, keeps the array length. |
| `Pass.PairStepConserves` | colisor.c:94-115 | One resolved pair among the first `n` spheres keeps several things: the length, every radius and colour, the spheres from index `n` on, and the sums of velocities and of centres over `[0, n)`. |
| `Pass.RowConserves` | colisor.c:93-116 | A whole inner loop keeps the same things. |
| `Pass.RowsConserve` | colisor.c:92-117 | The whole pass keeps the same things. |
| `Pass.RowWithoutContacts` | colisor.c:93-116 | If no two of the first `n` spheres are in contact, an inner loop changes nothing. |
| `Pass.PassWithoutContacts` | colisor.c:92-117 | If no two of the first `n` spheres are in contact, the whole pass changes nothing. |
| `Pass.PairwisePass` | colisor.c:91-118 | The double loop over an array computes the reference pass `Rows`. It keeps the sphere count, radii, colours, the spheres at index `>= n`, and the velocity and position sums over `[0, n)`. |
| `Simulation.Integrate` | colisor.c:122 | The centre moves by exactly `vel * dt`. Velocity, radius and colour are unchanged. |
| `Simulation.IntegrateComposes` | colisor.c:122 | Two position updates in a row, over `d1` and then `d2`, give the same sphere as one update over `d1 + d2`. |
| `Simulation.Advance` | colisor.c:121-124 | The first loop of the frame keeps the number of spheres. |
| `Simulation.AdvanceKeepsBallsInside` | colisor.c:121-124 | After the first loop, radii and colours are kept and spheres from `n` on are untouched. Every moved sphere with `raio <= LIMITE` is inside the cube. |
| `Simulation.Step` | colisor.c:120-126 | `n` is `NUM_BOLAS`. Before the pass, every moved sphere with `raio <= LIMITE` is inside the cube. The frame is the pairwise pass applied to the moved spheres. Against the moved spheres, it keeps their count, radii, colours and the velocity and centre sums. Across the frame, spheres at index `>= n`, radii and colours are untouched. |
| `Simulation.StepWithoutContactsKeepsBallsInside` | colisor.c:120-126 | Assume a corrected configuration, drawable radii, and no contacts after the move. Then every sphere ends the frame inside the cube. |
| `Simulation.CorrectionCanCrossWall` | colisor.c:111-114 | A sphere touching the face x = +LIMITE can be overlapped by a sphere directly behind it. The push then leaves its centre half the overlap beyond `LIMITE - raio`, outside the cube. |

## Findings

| source | as written | input that shows it | evidently intended | confidence | as-written member | corrected member |
|---|---|---|---|---|---|---|
| colisor.c:54-56 | The menu only requires cube size > 1, so `LIMITE` can be just above 0.5. Radii drawn at line 76 range from 0.7 to 1.29. With `raio > LIMITE`, `ColisaoParede` can never put the sphere inside. | TAMANHO_CUBO = 1.01 and raio = 0.7 give LIMITE = 0.505. After every wall check each coordinate of the centre is +0.195 or -0.195, so the sphere is never inside the cube. The whole velocity is multiplied by -Cr on every frame. A second check straight after the first moves the centre to its mirror point through the origin. | The cube must be large enough for every drawable sphere: cube size >= 2 * 1.29. | medium; not executed | `Wall.OversizedBallNeverSettles` (with `Wall.MenuAdmitsOversizedBall`) | `Wall.ValidConfigKeepsBallsInside` (predicate `Config.Valid`, used by `Simulation.StepWithoutContactsKeepsBallsInside`) |

Two properties of the program as written:

- One might expect every centre to stay within `[-LIMITE + raio, LIMITE - raio]` after a frame. The code does not guarantee it. The pairwise correction runs after the wall check, and nothing checks the walls again, so a correction can push a sphere out of the cube (`Simulation.CorrectionCanCrossWall`). Before the pass, the wall bound holds for every moved sphere with `raio <= LIMITE` (`Simulation.AdvanceKeepsBallsInside`, also an `ensures` of `Simulation.Step`). A sphere with `raio > LIMITE` never satisfies it (`Wall.OversizedBallNeverSettles`). At the end of a frame, the bound holds under `Config.Valid`, with radii the initialiser can draw, when no two moved spheres touch (`Simulation.StepWithoutContactsKeepsBallsInside`).
- Over the reals, the distance after a correction is exactly `r1 + r2` (`Pair.PairSeparation`). Only floating-point rounding makes it approximate.

## Left out

- Floating-point arithmetic: `float` is modelled as `real`, so every equality above holds only under exact arithmetic.
- The square root in `Vector3Length` (colisor.c:95): it is not computed. The distance comes in as a parameter, or through a function `len`, characterised by `dist >= 0` and `dist * dist == Dot(delta, delta)`.
- Console input in `MenuInicial` (colisor.c:29-59): only the resulting predicates are kept, as `Config.AcceptedByMenu`. The prompts and re-prompt loops are I/O.
- Scene initialisation `InicializarBolas` (colisor.c:62-78): it depends on time-seeded randomness and a library random source. Only the radius formula at line 76 is modelled, as `InitialRadius`, because the finding depends on it. Positions, velocities and colours are not modelled.
- The render and input loop in `main` (colisor.c:128-189): windowing, camera modes, key polling, drawing and the text overlay are UI and do not feed back into the physics.
- Sphere count and array capacity: the model accepts any sequence with at least `n` spheres. It does not fix the capacity at `MAX_BOLAS`, because the physics does not depend on the capacity.
- `Simulation.Step`: its contract does not say that centres end the frame inside the cube, because the code does not guarantee it (see above).
- `VELOCIDADE_MAX` (`Config.maxSpeed`) is read only by the menu check, by the velocity draw in `InicializarBolas` (not modelled), and by the on-screen status text (colisor.c:179). The physics never reads it.
