includes = ["**/*.dfy"]

[options]
resource-limit = 2000000
warn-contradictory-assumptions = true
